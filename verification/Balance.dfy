/** The chances cube-proxy writes into a service chain, and the choice they add up to. */
module Balance {

  /** What "%.2f" makes of 1/m, in hundredths: 1/8 is the only exact tie, and ties go to even. */
  function Hundredths(m: nat): nat {
    if m == 0 then 0 else if m == 8 then 12 else (200 + m) / (2 * m)
  }

  /** Rule by rule, the chance with which a packet that gets there is taken. */
  function Chance(h: nat): real {
    h as real / 100.0
  }

  /** The unrounded chances for n pods. */
  function Exact(n: nat): seq<real> {
    seq(n, k requires 0 <= k < n => 1.0 / (n - k) as real)
  }

  /** The chances as written: two decimals, and no condition on the last rule. */
  function Rounded(n: nat): seq<real> {
    seq(n, k requires 0 <= k < n => if k + 1 < n then Chance(Hundredths(n - k)) else 1.0)
  }

  /** The probability that none of the first i rules takes the packet. */
  function Reach(chances: seq<real>, i: nat): real
    requires i <= |chances|
  {
    if i == 0 then 1.0 else Reach(chances, i - 1) * (1.0 - chances[i - 1])
  }

  /** The probability that rule i is the one that takes the packet. */
  function Share(chances: seq<real>, i: nat): real
    requires i < |chances|
  {
    Reach(chances, i) * chances[i]
  }

  function ShareSum(chances: seq<real>, i: nat): real
    requires i <= |chances|
  {
    if i == 0 then 0.0 else ShareSum(chances, i - 1) + Share(chances, i - 1)
  }

  /** x and y differ by at most e. */
  predicate Within(x: real, y: real, e: real) {
    x - y <= e && y - x <= e
  }

  // ----- Arithmetic -----

  lemma TimesPositive(a: real, b: real)
    requires a > 0.0 && b > 0.0
    ensures a * b > 0.0
  {
  }

  lemma TimesNonnegative(a: real, b: real)
    requires a >= 0.0 && b >= 0.0
    ensures a * b >= 0.0
  {
  }

  lemma Distribute(a: real, b: real, x: real)
    ensures (a - b) * x == a * x - b * x
  {
  }

  lemma TimesAtMost(a: real, b: real)
    requires a >= 0.0 && b <= 1.0
    ensures b * a <= a
  {
    Distribute(1.0, b, a);
    TimesNonnegative(1.0 - b, a);
  }

  lemma Scaled(x: real, y: real, c: real)
    requires c > 0.0
    ensures x <= y <==> x * c <= y * c
  {
    Distribute(y, x, c);
    Distribute(x, y, c);
    if x <= y {
      TimesNonnegative(y - x, c);
    } else {
      TimesPositive(x - y, c);
    }
  }

  lemma QuotientBounds(a: nat, d: nat)
    requires d > 0
    ensures (a / d) * d <= a < (a / d) * d + d
  {
  }

  lemma TimesOrder(x: nat, y: nat, d: nat)
    requires x <= y
    ensures x * d <= y * d
  {
  }

  lemma QuotientBelow(a: nat, d: nat, k: nat)
    requires d > 0
    ensures a < k * d <==> a / d < k
  {
    QuotientBounds(a, d);
    if a / d < k {
      TimesOrder(a / d + 1, k, d);
    } else {
      TimesOrder(k, a / d, d);
    }
  }

  // ----- Rounding -----

  /** The written value is a nearest one: off by at most half a hundredth. */
  lemma NearestHundredths(m: nat)
    requires m > 0
    ensures -(m as int) <= 2 * (Hundredths(m) * m) - 200 <= m
  {
    QuotientBounds(200 + m, 2 * m);
    var q := (200 + m) / (2 * m);
    assert q * (2 * m) == 2 * (q * m);
  }

  /** Every value but three has a unique nearest one; 1/8 goes to the even one, and 1/40 and 1/200 up, as their binary forms are above the tie. */
  lemma TiedHundredths(m: nat)
    requires m > 0
    ensures 2 * (Hundredths(m) * m) - 200 == m || 200 - 2 * (Hundredths(m) * m) == m ==> m == 8 || m == 40 || m == 200
    ensures Hundredths(8) == 12 && Hundredths(40) == 3 && Hundredths(200) == 1
  {
    if 2 * (Hundredths(m) * m) - 200 == m || 200 - 2 * (Hundredths(m) * m) == m {
      TieDivides(m, Hundredths(m));
    }
  }

  lemma TieDivides(m: nat, h: nat)
    requires m > 0 && (2 * (h * m) - 200 == m || 200 - 2 * (h * m) == m)
    requires h == Hundredths(m)
    ensures m == 8 || m == 40 || m == 200
  {
    var odd := if 2 * (h * m) - 200 == m then 2 * h - 1 else 2 * h + 1;
    assert odd * m == 200;
  }

  lemma HundredthsRange(m: nat)
    requires m >= 2
    ensures Hundredths(m) <= 50
    ensures Hundredths(m) >= 1 <==> m <= 200
  {
    QuotientBelow(200 + m, 2 * m, 51);
    QuotientBelow(200 + m, 2 * m, 1);
  }

  lemma RatioClose(h: real, r: real)
    requires r > 0.0 && -r <= 2.0 * (h * r) - 200.0 <= r
    ensures Within(h / 100.0, 1.0 / r, 0.005)
  {
    var c, inverse := h / 100.0, 1.0 / r;
    var low, high, w := -0.005 * r, 0.005 * r, (c - inverse) * r;
    assert h * r == 100.0 * (c * r);
    assert inverse * r == 1.0;
    assert w == c * r - inverse * r by { Distribute(c, inverse, r); }
    assert low <= w <= high;
    Scaled(c - inverse, 0.005, r);
    Scaled(-0.005, c - inverse, r);
  }

  /** In reals: each written chance is within 0.005 of the exact one. */
  lemma ChanceClose(m: nat)
    requires m > 0
    ensures Within(Chance(Hundredths(m)), 1.0 / m as real, 0.005)
  {
    NearestHundredths(m);
    var h := Hundredths(m);
    assert (h * m) as real == h as real * m as real;
    RatioClose(h as real, m as real);
  }

  // ----- The exact chain -----

  lemma {:induction false} ExactReach(n: nat, i: nat)
    requires i < n
    ensures Reach(Exact(n), i) == (n - i) as real / n as real
  {
    if i > 0 {
      ExactReach(n, i - 1);
      var a, b := (n - i + 1) as real, n as real;
      assert Exact(n)[i - 1] == 1.0 / a;
      assert (a / b) * (1.0 - 1.0 / a) == (a - 1.0) / b by {
        assert a * (1.0 - 1.0 / a) == a - 1.0;
        assert (a / b) * (1.0 - 1.0 / a) == a * (1.0 - 1.0 / a) / b;
      }
    }
  }

  /** Without rounding, every pod gets the same share. */
  lemma ExactIsFair(n: nat, i: nat)
    requires i < n
    ensures Share(Exact(n), i) == 1.0 / n as real
  {
    ExactReach(n, i);
    var a, b := (n - i) as real, n as real;
    assert Exact(n)[i] == 1.0 / a;
    assert (a / b) * (1.0 / a) == 1.0 / b by {
      assert a * (1.0 / a) == 1.0;
      assert (a / b) * (1.0 / a) == a * (1.0 / a) / b;
    }
  }

  // ----- The rounded chain -----

  lemma {:induction false} ShareSumIsTaken(chances: seq<real>, i: nat)
    requires i <= |chances|
    ensures ShareSum(chances, i) == 1.0 - Reach(chances, i)
  {
    if i > 0 {
      ShareSumIsTaken(chances, i - 1);
    }
  }

  /** No packet gets through a chain whose last rule is unconditional: the shares sum to one. */
  lemma SharesSumToOne(n: nat)
    requires n > 0
    ensures ShareSum(Rounded(n), n) == 1.0
  {
    ShareSumIsTaken(Rounded(n), n);
  }

  lemma RoundedRange(n: nat, k: nat)
    requires k + 1 < n
    ensures Rounded(n)[k] == Chance(Hundredths(n - k)) && 0.0 <= Rounded(n)[k] <= 0.5
    ensures Rounded(n)[k] > 0.0 <==> n - k <= 200
  {
    HundredthsRange(n - k);
  }

  /** A factor of at least one half keeps a product positive, one of at most one keeps it small. */
  lemma UnitTimes(a: real, b: real)
    requires 0.0 < a <= 1.0 && 0.5 <= b <= 1.0
    ensures 0.0 < a * b <= 1.0
  {
    TimesPositive(a, b);
    TimesAtMost(a, b);
  }

  lemma {:induction false} ReachInUnit(c: seq<real>, i: nat)
    requires i <= |c| && forall k :: 0 <= k < i ==> 0.0 <= c[k] <= 0.5
    ensures 0.0 < Reach(c, i) <= 1.0
  {
    if i > 0 {
      ReachInUnit(c, i - 1);
      var b := 1.0 - c[i - 1];
      assert Reach(c, i) == Reach(c, i - 1) * b;
      UnitTimes(Reach(c, i - 1), b);
    }
  }

  lemma SharePositive(c: seq<real>, i: nat)
    requires i < |c| && (forall k :: 0 <= k < i ==> 0.0 <= c[k] <= 0.5) && 0.0 < c[i]
    ensures Share(c, i) > 0.0
  {
    ReachInUnit(c, i);
    TimesPositive(Reach(c, i), c[i]);
  }

  lemma TimesWithin(u: real, f: real, e: real)
    requires 0.0 <= f <= 1.0 && Within(u, 0.0, e)
    ensures Within(u * f, 0.0, e)
  {
    var p, q := (e - u) * f, (e + u) * f;
    assert p >= 0.0 by { TimesNonnegative(e - u, f); }
    assert q >= 0.0 by { TimesNonnegative(e + u, f); }
    assert p == e * f - u * f by { Distribute(e, u, f); }
    assert q == e * f + u * f;
    assert e * f == f * e <= e by { TimesAtMost(e, f); }
    assert u * f <= e && -(u * f) <= e;
  }

  /** Products of values close by stay close, if the factors are in the unit interval. */
  lemma ProductsClose(a: real, b: real, x: real, y: real, e: real, d: real)
    requires 0.0 <= b <= 1.0 && 0.0 <= x <= 1.0
    requires Within(a, b, e) && Within(x, y, d)
    ensures Within(a * x, b * y, e + d)
  {
    var p, q := (a - b) * x, (x - y) * b;
    assert p == a * x - b * x by { Distribute(a, b, x); }
    assert q == x * b - y * b by { Distribute(x, y, b); }
    assert Within(p, 0.0, e) by { TimesWithin(a - b, x, e); }
    assert Within(q, 0.0, d) by { TimesWithin(x - y, b, d); }
    assert x * b == b * x && y * b == b * y;
    assert a * x - b * y == p + q;
    assert p + q <= e + d && -e - d <= p + q;
  }

  /** The chances of one rule, and of passing it, before and after rounding. */
  lemma RuleClose(n: nat, k: nat)
    requires k < n
    ensures 0.0 <= Rounded(n)[k] <= 1.0 && Within(Rounded(n)[k], Exact(n)[k], 0.005)
  {
    if k + 1 < n {
      RoundedRange(n, k);
      ChanceClose(n - k);
    } else {
      assert Exact(n)[k] == 1.0;
    }
  }

  lemma ExactReachInUnit(n: nat, i: nat)
    requires i < n
    ensures 0.0 <= Reach(Exact(n), i) <= 1.0
  {
    ExactReach(n, i);
    var a, b := (n - i) as real, n as real;
    assert a / b * b == a;
    Scaled(a / b, 1.0, b);
    Scaled(0.0, a / b, b);
  }

  ghost predicate CloseBy(c: seq<real>, d: seq<real>, i: nat) {
    && i <= |c| == |d|
    && (forall k :: 0 <= k < i ==> 0.0 <= c[k] <= 1.0 && Within(c[k], d[k], 0.005))
    && (forall k: nat :: k < i ==> 0.0 <= Reach(d, k) <= 1.0)
  }

  lemma {:induction false} ReachClose(c: seq<real>, d: seq<real>, i: nat)
    requires CloseBy(c, d, i)
    ensures Within(Reach(c, i), Reach(d, i), 0.005 * i as real)
  {
    if i > 0 {
      ReachClose(c, d, i - 1);
      ProductsClose(Reach(c, i - 1), Reach(d, i - 1), 1.0 - c[i - 1], 1.0 - d[i - 1], 0.005 * (i - 1) as real, 0.005);
    }
  }

  lemma RoundingCloseBy(n: nat)
    ensures CloseBy(Rounded(n), Exact(n), n)
  {
    forall k: nat | k < n
      ensures 0.0 <= Rounded(n)[k] <= 1.0 && Within(Rounded(n)[k], Exact(n)[k], 0.005)
      ensures 0.0 <= Reach(Exact(n), k) <= 1.0
    {
      RuleClose(n, k);
      ExactReachInUnit(n, k);
    }
  }

  lemma ShareClose(c: seq<real>, d: seq<real>, i: nat)
    requires CloseBy(c, d, i + 1)
    ensures Within(Share(c, i), Share(d, i), 0.005 * (i + 1) as real)
  {
    ReachClose(c, d, i);
    ProductsClose(Reach(c, i), Reach(d, i), c[i], d[i], 0.005 * i as real, 0.005);
  }

  /** Rounding moves pod i's share by at most half a hundredth per rule up to its own. */
  lemma RoundedIsClose(n: nat, i: nat)
    requires i < n
    ensures Within(Share(Rounded(n), i), 1.0 / n as real, 0.005 * (i + 1) as real)
  {
    ExactIsFair(n, i);
    RoundingCloseBy(n);
    ShareClose(Rounded(n), Exact(n), i);
  }

  /** Every pod gets packets exactly up to 200 pods; from 201 on the first rule reads 0.00. */
  lemma AllServedUpTo200(n: nat)
    ensures (forall i :: 0 <= i < n ==> Share(Rounded(n), i) > 0.0) <==> n <= 200
  {
    if n <= 200 {
      forall i | 0 <= i < n
        ensures Share(Rounded(n), i) > 0.0
      {
        forall k | 0 <= k < i
          ensures 0.0 <= Rounded(n)[k] <= 0.5
        {
          RoundedRange(n, k);
        }
        if i + 1 < n {
          RoundedRange(n, i);
        }
        SharePositive(Rounded(n), i);
      }
    } else {
      RoundedRange(n, 0);
      assert Share(Rounded(n), 0) == 0.0;
    }
  }
}
