/** Finite sums of reals indexed 0..n-1, and the laws the ledgers need. */
module Sums {
  import opened Rounding

  function SumTo(n: nat, f: int -> real): real {
    if n == 0 then 0.0 else SumTo(n - 1, f) + f(n - 1)
  }

  lemma {:induction false} SumCongruent(n: nat, f: int -> real, g: int -> real)
    requires forall i :: 0 <= i < n ==> f(i) == g(i)
    ensures SumTo(n, f) == SumTo(n, g)
  {
    if n > 0 {
      SumCongruent(n - 1, f, g);
    }
  }

  lemma {:induction false} SumOfSums(n: nat, f: int -> real, g: int -> real, h: int -> real)
    requires forall i :: 0 <= i < n ==> h(i) == f(i) + g(i)
    ensures SumTo(n, h) == SumTo(n, f) + SumTo(n, g)
  {
    if n > 0 {
      SumOfSums(n - 1, f, g, h);
    }
  }

  lemma {:induction false} SumOfDifferences(n: nat, f: int -> real, g: int -> real, h: int -> real)
    requires forall i :: 0 <= i < n ==> h(i) == f(i) - g(i)
    ensures SumTo(n, h) == SumTo(n, f) - SumTo(n, g)
  {
    if n > 0 {
      SumOfDifferences(n - 1, f, g, h);
    }
  }

  lemma {:induction false} SumScaled(n: nat, c: real, f: int -> real, g: int -> real)
    requires forall i :: 0 <= i < n ==> g(i) == c * f(i)
    ensures SumTo(n, g) == c * SumTo(n, f)
  {
    if n > 0 {
      SumScaled(n - 1, c, f, g);
      assert c * (SumTo(n - 1, f) + f(n - 1)) == c * SumTo(n - 1, f) + c * f(n - 1);
    }
  }

  lemma {:induction false} SumConstant(n: nat, c: real, f: int -> real)
    requires forall i :: 0 <= i < n ==> f(i) == c
    ensures SumTo(n, f) == n as real * c
  {
    if n > 0 {
      SumConstant(n - 1, c, f);
      assert n as real == (n - 1) as real + 1.0;
      assert n as real * c == (n - 1) as real * c + c;
    }
  }

  lemma {:induction false} SumOnGrid(n: nat, f: int -> real)
    requires forall i :: 0 <= i < n ==> OnGrid(f(i))
    ensures OnGrid(SumTo(n, f))
  {
    if n > 0 {
      SumOnGrid(n - 1, f);
      GridSum(SumTo(n - 1, f), f(n - 1));
    }
  }

  /** Termwise error budgets b add up. */
  lemma {:induction false} SumBudget(n: nat, f: int -> real, g: int -> real, b: int -> real)
    requires forall i :: 0 <= i < n ==> Abs(f(i) - g(i)) <= b(i)
    ensures Abs(SumTo(n, f) - SumTo(n, g)) <= SumTo(n, b)
  {
    if n > 0 {
      SumBudget(n - 1, f, g, b);
    }
  }

  /** Termwise closeness adds up. */
  lemma SumWithin(n: nat, f: int -> real, g: int -> real, e: real)
    requires forall i :: 0 <= i < n ==> Abs(f(i) - g(i)) <= e
    ensures Abs(SumTo(n, f) - SumTo(n, g)) <= n as real * e
  {
    var b := (i: int) => e;
    SumBudget(n, f, g, b);
    SumConstant(n, e, b);
  }
}
