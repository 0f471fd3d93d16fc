/** Remainders near zero. */
module Modular {
  lemma SmallMod(a: int, n: int)
    requires 0 <= a < n
    ensures a % n == a
  {}

  lemma WrapMod(a: int, n: int)
    requires -n <= a < 0
    ensures a % n == a + n
  {
    assert a / n == -1;
  }

  lemma SubMod(a: int, n: int)
    requires 0 < n <= a < 2 * n
    ensures a % n == a - n
  {
    assert a / n == 1;
  }
}
