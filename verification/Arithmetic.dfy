/** Division facts the solver does not find by itself. */
module Arithmetic {

  lemma QuotientUnique(a: int, d: int, q: int, r: int)
    requires a == q * d + r && 0 <= r < d
    ensures a / d == q && a % d == r
  {
    var k := a / d - q;
    assert a == (a / d) * d + a % d;
    assert k * d == r - a % d;
    assert k >= 1 ==> k * d >= d;
    assert k <= -1 ==> k * d + d <= 0;
  }

  lemma QuotientMonotone(a: int, b: int, d: int)
    requires d > 0 && a <= b
    ensures a / d <= b / d
  {
    var k := b / d - a / d;
    assert k * d == (b / d) * d - (a / d) * d;
    assert k <= -1 ==> k * d + d <= 0;
  }
}
