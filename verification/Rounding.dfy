/** Fixed-scale decimals: half-even rounding to the money grid (1e-18) and the quantity
    grid (1e-24). Intermediate arithmetic is exact; only serialization rounds. */
module Rounding {

  function Abs(x: real): real { if x < 0.0 then -x else x }

  function Max(x: real, y: real): real { if x < y then y else x }

  /** An absolute error, or a share of the larger of two values. */
  function AllowedError(absolute: real, relative: real, x: real, y: real): real {
    absolute + relative * Max(Abs(x), Abs(y))
  }

  /** Nearest integer; ties go to the even neighbour (roundTiesToEven, IEEE 754-2008, 4.3.1). */
  function HalfEven(x: real): (n: int)
    ensures -0.5 <= n as real - x <= 0.5
    ensures n as real - x == 0.5 || n as real - x == -0.5 ==> n % 2 == 0
  {
    var below := x.Floor;
    var rest := x - below as real;
    if rest < 0.5 then below
    else if rest > 0.5 then below + 1
    else if below % 2 == 0 then below else below + 1
  }

  function Money(x: real): real {
    HalfEven(x * 1_000_000_000_000_000_000.0) as real / 1_000_000_000_000_000_000.0
  }

  function Quantity(x: real): real {
    HalfEven(x * 1_000_000_000_000_000_000_000_000.0) as real / 1_000_000_000_000_000_000_000_000.0
  }

  /** One money quantum. */
  const Q: real := 0.000_000_000_000_000_001

  /** x is a whole number of money quanta. */
  predicate OnGrid(x: real) {
    (x * 1_000_000_000_000_000_000.0).Floor as real == x * 1_000_000_000_000_000_000.0
  }

  /** The contract determines the function: no other integer is a nearest one with the tie rule. */
  lemma HalfEvenUnique(x: real, n: int)
    requires -0.5 <= n as real - x <= 0.5
    requires n as real - x == 0.5 || n as real - x == -0.5 ==> n % 2 == 0
    ensures n == HalfEven(x)
  {
  }

  lemma HalfEvenOdd(x: real)
    ensures HalfEven(-x) == -HalfEven(x)
  {
    HalfEvenUnique(-x, -HalfEven(x));
  }

  lemma HalfEvenShift(x: real, d: int)
    requires d % 2 == 0
    ensures HalfEven(x + d as real) == HalfEven(x) + d
  {
    var n := HalfEven(x);
    assert (n + d) as real == n as real + d as real;
    assert (n + d) % 2 == n % 2;
    HalfEvenUnique(x + d as real, n + d);
  }

  lemma HalfEvenInteger(n: int)
    ensures HalfEven(n as real) == n
  {
    HalfEvenUnique(n as real, n);
  }

  /** Whole numbers d apart, at most n/2, and an even distance if that far. */
  predicate WithinHalves(d: int, n: int) {
    -n <= 2 * d <= n && (2 * d == n || 2 * d == -n ==> d % 2 == 0)
  }

  /** The integer m is within k halves of tau, and even if that far. */
  predicate NearWithin(m: int, tau: real, k: int) {
    var far := 2.0 * (m as real - tau);
    -(k as real) <= far <= k as real && (far == k as real || far == -(k as real) ==> m % 2 == 0)
  }

  /** An integer within half of tau and one within k halves of it are (k+1)/2 apart at most; they are that far apart
      only if both tie, against each other, and are then even. */
  lemma OppositeTies(k: int, m: int, n: int, tau: real)
    requires NearWithin(m, tau, k) && NearWithin(n, tau, 1)
    ensures WithinHalves(m - n, k + 1)
  {
    var x, y := 2.0 * (m as real - tau), 2.0 * (n as real - tau);
    assert (2 * (m - n)) as real == x - y;
    FarthestApart(k, 2 * (m - n), x, y);
    EvenApart(m, n);
  }

  lemma FarthestApart(k: int, d: int, x: real, y: real)
    requires -(k as real) <= x <= k as real && -1.0 <= y <= 1.0 && d as real == x - y
    ensures -(k + 1) <= d <= k + 1
    ensures d == k + 1 || d == -(k + 1) ==> (x == k as real || x == -(k as real)) && (y == 1.0 || y == -1.0)
  {
    WholeBounds(d, k + 1);
  }

  lemma EvenApart(m: int, n: int)
    ensures m % 2 == 0 && n % 2 == 0 ==> (m - n) % 2 == 0
  {
  }

  lemma WholeBounds(a: int, b: int)
    ensures -(b as real) <= a as real <= b as real <==> -b <= a <= b
    ensures a as real == b as real <==> a == b
    ensures a as real == -(b as real) <==> a == -b
  {
    assert -(b as real) == (-b) as real;
  }

  lemma MoneyError(x: real)
    ensures Abs(Money(x) - x) <= 0.000_000_000_000_000_000_5
  {
  }

  lemma QuantityError(x: real)
    ensures Abs(Quantity(x) - x) <= 0.000_000_000_000_000_000_000_000_5
  {
  }

  lemma MoneyOnGrid(x: real)
    ensures OnGrid(Money(x))
  {
  }

  lemma MoneyFixed(x: real)
    requires OnGrid(x)
    ensures Money(x) == x
  {
    HalfEvenInteger((x * 1_000_000_000_000_000_000.0).Floor);
  }

  lemma WholeSum(a: real, b: real)
    requires a.Floor as real == a && b.Floor as real == b
    ensures (a + b).Floor as real == a + b
  {
    var n := a.Floor + b.Floor;
    assert n as real == a + b;
    assert (n as real).Floor == n;
  }

  lemma GridSum(x: real, y: real)
    requires OnGrid(x) && OnGrid(y)
    ensures OnGrid(x + y)
  {
    var a, b := x * 1_000_000_000_000_000_000.0, y * 1_000_000_000_000_000_000.0;
    WholeSum(a, b);
    assert (x + y) * 1_000_000_000_000_000_000.0 == a + b;
  }

  /** Two grid values less than n+1 quanta apart are at most n quanta apart. */
  lemma GridGap(x: real, y: real, n: nat)
    requires OnGrid(x) && OnGrid(y)
    requires Abs(x - y) * 1_000_000_000_000_000_000.0 < n as real + 1.0
    ensures Abs(x - y) * 1_000_000_000_000_000_000.0 <= n as real
  {
    var a, b := (x * 1_000_000_000_000_000_000.0).Floor, (y * 1_000_000_000_000_000_000.0).Floor;
    var d := if x < y then b - a else a - b;
    assert Abs(x - y) * 1_000_000_000_000_000_000.0 == d as real;
    assert d < n + 1;
  }

  /** Serializing two values adds at most one quantum to their distance. */
  lemma MoneyGap(x: real, y: real, bound: real)
    requires Abs(x - y) <= bound
    ensures Abs(Money(x) - Money(y)) <= bound + 0.000_000_000_000_000_001
  {
    MoneyError(x);
    MoneyError(y);
  }

  /** An even number of quanta passes through serialization unchanged. */
  lemma MoneyShift(x: real, d: int)
    requires d % 2 == 0
    ensures Money(x + d as real / 1_000_000_000_000_000_000.0) == Money(x) + d as real / 1_000_000_000_000_000_000.0
  {
    var y := x * 1_000_000_000_000_000_000.0;
    assert (x + d as real / 1_000_000_000_000_000_000.0) * 1_000_000_000_000_000_000.0 == y + d as real;
    HalfEvenShift(y, d);
  }

  lemma MoneyOdd(x: real)
    ensures Money(-x) == -Money(x)
  {
    HalfEvenOdd(x * 1_000_000_000_000_000_000.0);
  }
}
