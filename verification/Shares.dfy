/**
 Shares of a sample as exact ratios, and how many samples it takes to meet two
 thresholds at once.
 */
module Shares {
  import opened Aggregation
  import opened Numbers

  lemma QuotientAtMostOne(x: real, r: real)
    requires r > 0.0
    ensures x <= r ==> x / r <= 1.0
    ensures x < r ==> x / r < 1.0
  {
    assert x / r * r == x;
  }

  lemma RatioSum(c: nat, m: nat, n: nat)
    requires n > 0 && c + m <= n
    ensures Ratio(c, n) + Ratio(m, n) <= 1.0
    ensures c >= 1 ==> Ratio(m, n) < 1.0
  {
    var r := n as real;
    assert Ratio(c, n) + Ratio(m, n) == (c + m) as real / r;
    QuotientAtMostOne((c + m) as real, r);
    QuotientAtMostOne(m as real, r);
  }

  lemma RatioAtMostOne(c: nat, n: nat)
    requires c <= n
    ensures Ratio(c, n) <= 1.0
  {
    if n > 0 { QuotientAtMostOne(c as real, n as real); }
  }

  lemma Times(a: real, b: real, g: real)
    requires a <= b && g >= 0.0
    ensures a * g <= b * g && g * a <= g * b
  {
  }

  lemma ScaledRatio(x: real, c: nat, n: nat)
    requires n > 0 && x * n as real <= c as real
    ensures x <= Ratio(c, n)
  {
    var r := n as real;
    var y := c as real / r;
    assert y * r == c as real;
    if x > y { assert (x - y) * r > 0.0; }
  }

  /** How many samples it takes: enough for two count thresholds, and for one sample to fit into the gap. */
  function Scale(gap: real, a: int, b: int): (m: nat)
    requires gap > 0.0
    ensures m >= 1 && m >= a && m >= b
  {
    var f := (1.0 / gap).Floor + 1;
    Max(Max(1, f), Max(a, b))
  }

  lemma ScaleFits(gap: real, a: int, b: int)
    requires gap > 0.0
    ensures Scale(gap, a, b) as real * gap >= 1.0
  {
    var x := 1.0 / gap;
    assert Scale(gap, a, b) >= x.Floor + 1;
    assert Scale(gap, a, b) as real >= x;
    Times(x, Scale(gap, a, b) as real, gap);
    assert x * gap == 1.0;
  }

  /** A multiple of the denominator, so that the share asked for is a whole number of samples. */
  lemma WholeShare(d: real, p: int, q: int, m: nat) returns (a: int, n: nat)
    requires q > 0 && d == p as real / q as real
    ensures n >= m && d * n as real == a as real
  {
    ProductGrows(q, m);
    ThresholdScaled(d, p, q, m);
    a, n := p * m, q * m;
  }

  /** `k` of `n` samples meet the dominance threshold `d`, and the others the coverage threshold `c`. */
  lemma SharesFit(d: real, c: real, k: nat, n: nat)
    requires k <= n && n > 0 && d * n as real <= k as real <= (1.0 - c) * n as real
    ensures d <= Ratio(k, n) && c <= Ratio(n - k, n)
  {
    ScaledRatio(d, k, n);
    assert (1.0 - c) * n as real == n as real - c * n as real;
    ScaledRatio(c, n - k, n);
  }

  lemma ThresholdScaled(d: real, p: int, q: int, m: nat)
    requires q > 0 && d == p as real / q as real
    ensures d * (q * m) as real == (p * m) as real
  {
    assert d * q as real == p as real;
    assert (q * m) as real == q as real * m as real;
    assert d * (q as real * m as real) == d * q as real * m as real;
  }

  lemma ProductGrows(q: int, m: nat)
    requires q >= 1
    ensures q * m >= m
  {
  }

  lemma LeakFits(d: real, gap: real, a: int, n: nat, m: nat)
    requires d <= 1.0 && 0.0 < gap && d <= gap && 1 <= m <= n
    requires d * n as real == a as real && m as real * gap >= 1.0
    ensures var k := Max(1, a); 1 <= k <= n && d * n as real <= k as real <= gap * n as real
  {
    RoomForBoth(d, gap, m as real, n as real);
    LargestFits(d * n as real, gap * n as real, n as real, a);
  }

  lemma RoomForBoth(d: real, gap: real, m: real, r: real)
    requires d <= 1.0 && 0.0 < gap && d <= gap && 1.0 <= m <= r && m * gap >= 1.0
    ensures d * r <= gap * r && d * r <= r && 1.0 <= gap * r
  {
    Times(d, gap, r);
    Times(d, 1.0, r);
    Times(m, r, gap);
  }

  lemma LargestFits(share: real, room: real, r: real, a: int)
    requires share == a as real && share <= room && share <= r && 1.0 <= room && 1.0 <= r
    ensures var k := Max(1, a); share <= k as real <= room && k as real <= r
  {
  }
}
