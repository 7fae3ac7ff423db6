/** The few facts about products and quotients the other modules rest on. */
module Arith {

  function Min(x: int, y: int): int {
    if x < y then x else y
  }

  lemma MulMono(x: int, y: int, k: int)
    requires x <= y && k >= 0
    ensures x * k <= y * k
  {
    assert (y - x) * k >= 0;
  }

  lemma MulCompare(x: int, y: int, n: int)
    requires n > 0 && x * n < y * n
    ensures x < y
  {
    if x >= y {
      MulMono(y, x, n);
    }
  }

  lemma DivIs(x: int, d: int, n: int)
    requires d > 0 && 0 <= x - n * d < d
    ensures x / d == n
  {
    var e := x / d;
    assert (e - n) * d == e * d - n * d;
    MulCompare(e - n, 1, d);
    MulCompare(-1, e - n, d);
  }

  lemma ModZero(x: int, n: int)
    requires n > 0
    ensures (x * n) % n == 0
  {
    DivIs(x * n, n, x);
  }

  lemma MulAdd(k: int, x: int, y: int)
    ensures k * (x + y) == k * x + k * y && k * (x - y) == k * x - k * y
  {
  }
}
