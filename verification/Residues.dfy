/** Splitting a whole number of quanta into k equal serialized shares: what k shares add up to. */
module Residues {
  import opened Rounding

  function Quanta(n: int): real { n as real / 1_000_000_000_000_000_000.0 }

  /** k serialized shares of n quanta exceed n by this many quanta. */
  function Miss(n: int, k: int): int
    requires k > 0
  {
    k * HalfEven(n as real / k as real) - n
  }

  lemma ScaleOrder(a: real, b: real, k: real)
    requires k > 0.0
    ensures a < b <==> a * k < b * k
  {
  }

  lemma FractionOrder(r: real, k: real, c: real)
    requires k > 0.0
    ensures r / k < c <==> r < c * k
    ensures r / k > c <==> r > c * k
  {
    var f := r / k;
    assert f * k == r;
    ScaleOrder(f, c, k);
    ScaleOrder(c, f, k);
  }

  lemma Fraction(r: int, k: int)
    requires k > 0
    ensures 2 * r < k <==> r as real / k as real < 0.5
    ensures 2 * r > k <==> r as real / k as real > 0.5
    ensures 0 <= r < k ==> 0.0 <= r as real / k as real < 1.0
  {
    var x, y := r as real, k as real;
    FractionOrder(x, y, 0.5);
    FractionOrder(x, y, 1.0);
    FractionOrder(x, y, 0.0);
    assert 2 * r < k <==> 2.0 * x < y;
    assert 2 * r > k <==> 2.0 * x > y;
  }

  lemma Quotient(n: int, k: int)
    requires k > 0
    ensures n as real / k as real == (n / k) as real + (n % k) as real / k as real
  {
    assert n as real == (k * (n / k) + n % k) as real == k as real * (n / k) as real + (n % k) as real;
  }

  /** Half-even division of integers: the quotient's error times the divisor is the nearer of -r and k-r. */
  lemma NearestMultiple(n: int, k: int)
    requires k > 0
    ensures var miss := Miss(n, k);
            && (2 * (n % k) < k ==> miss == -(n % k))
            && (2 * (n % k) > k ==> miss == k - n % k)
            && (2 * (n % k) == k ==> miss == n % k || miss == -(n % k))
  {
    var d, r, h := n / k, n % k, HalfEven(n as real / k as real);
    Quotient(n, k);
    Fraction(r, k);
    NearestQuotient(n as real / k as real, d, r as real / k as real);
    if h == d {
      assert k * h - n == -r;
    } else {
      assert k * (d + 1) == k * d + k;
      assert k * h - n == k - r;
    }
  }

  lemma NearestQuotient(x: real, d: int, f: real)
    requires x == d as real + f && 0.0 <= f < 1.0
    ensures f < 0.5 ==> HalfEven(x) == d
    ensures f > 0.5 ==> HalfEven(x) == d + 1
    ensures HalfEven(x) == d || HalfEven(x) == d + 1
  {
    if f < 0.5 {
      HalfEvenUnique(x, d);
    } else if f > 0.5 {
      HalfEvenUnique(x, d + 1);
    }
  }

  /** k written shares of n quanta add up to n plus the miss. */
  lemma WrittenShare(n: int, k: int)
    requires k > 0
    ensures k as real * Money(Quanta(n) / k as real) == Quanta(n + Miss(n, k))
  {
    var x, h := n as real / k as real, HalfEven(n as real / k as real);
    assert (Quanta(n) / k as real) * 1_000_000_000_000_000_000.0 == x;
    assert k as real * (h as real / 1_000_000_000_000_000_000.0) == (k * h) as real / 1_000_000_000_000_000_000.0;
  }
}
