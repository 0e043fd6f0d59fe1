/** Facts about integer division, each small enough for one step of a larger proof. */
module Quotients {

  lemma Steps(d: nat, a: int, b: int)
    ensures a < b ==> d * a + d <= d * b
    ensures b < a ==> d * b + d <= d * a
  {
    if a < b {
      var k: nat := b - a - 1;
      assert d * k >= 0 && d * (a + 1 + k) == d * a + d + d * k;
    } else if b < a {
      var k: nat := a - b - 1;
      assert d * k >= 0 && d * (b + 1 + k) == d * b + d + d * k;
    }
  }

  lemma QuotientIs(x: int, d: nat, q: int, rest: int)
    requires x == d * q + rest && 0 <= rest < d
    ensures x / d == q && x % d == rest
  {
    var e := x / d;
    assert x == d * e + x % d;
    Steps(d, e, q);
  }
}
