/**
 * Facts about Dafny's `%` on non-negative operands, shared by the widgets
 * whose indices wrap around (the phrase index of the typewriter and the
 * slide index of the testimonial carousel).
 */
module Modular {

  lemma MulAtLeast(d: int, n: int)
    requires d >= 1 && n > 0
    ensures d * n >= n
  {
    var k := d - 1;
    assert d * n == k * n + n;
    assert k * n >= 0;
  }

  /** The remainder is determined by any decomposition `a == q * n + r` with `0 <= r < n`. */
  lemma ModUnique(a: int, n: int, q: int, r: int)
    requires n > 0 && a == q * n + r && 0 <= r < n
    ensures a % n == r
  {
    var q', r' := a / n, a % n;
    assert a == q' * n + r';
    var d := q - q';
    assert d * n == r' - r;
    if d >= 1 {
      MulAtLeast(d, n);
    } else if d <= -1 {
      MulAtLeast(-d, n);
    }
  }

  /** Adding one before or after taking the remainder gives the same remainder. */
  lemma ModSucc(a: nat, n: nat)
    requires n > 0
    ensures (a + 1) % n == (a % n + 1) % n
  {
    var q, i := a / n, a % n;
    assert a == q * n + i;
    if i + 1 < n {
      ModUnique(a + 1, n, q, i + 1);
      ModUnique(i + 1, n, 0, i + 1);
    } else {
      ModUnique(a + 1, n, q + 1, 0);
      ModUnique(i + 1, n, 1, 0);
    }
  }
}
