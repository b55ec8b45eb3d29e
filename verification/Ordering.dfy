/** Sorting by a total order: what `sorted` promises, and when two inputs sort to the same list. */
module Ordering {
  ghost predicate TotalOrder<T(!new)>(le: (T, T) -> bool) {
    && (forall a, b :: le(a, b) || le(b, a))
    && (forall a, b :: le(a, b) && le(b, a) ==> a == b)
    && (forall a, b, c :: le(a, b) && le(b, c) ==> le(a, c))
  }

  /** A total order of sort keys: two elements may share a key. */
  ghost predicate Preorder<T(!new)>(le: (T, T) -> bool) {
    && (forall a, b :: le(a, b) || le(b, a))
    && (forall a, b, c :: le(a, b) && le(b, c) ==> le(a, c))
  }

  /** No two different elements of the list share a key. */
  ghost predicate Separates<T(!new)>(le: (T, T) -> bool, s: seq<T>) {
    forall a, b | a in s && b in s && le(a, b) && le(b, a) :: a == b
  }

  /** The list is in order: every element is at most each later one. */
  ghost predicate Ordered<T>(s: seq<T>, le: (T, T) -> bool) {
    forall i, j | 0 <= i < j < |s| :: le(s[i], s[j])
  }

  predicate Distinct<T(==)>(s: seq<T>) {
    forall i, j | 0 <= i < j < |s| :: s[i] != s[j]
  }

  /** `x` placed before the first element it does not follow. */
  function Insert<T>(x: T, s: seq<T>, le: (T, T) -> bool): seq<T> {
    if s == [] then [x]
    else if le(x, s[0]) then [x] + s
    else [s[0]] + Insert(x, s[1..], le)
  }

  function Sort<T>(s: seq<T>, le: (T, T) -> bool): seq<T> {
    if s == [] then [] else Insert(s[0], Sort(s[1..], le), le)
  }

  lemma {:induction false} InsertKeeps<T>(x: T, s: seq<T>, le: (T, T) -> bool)
    ensures multiset(Insert(x, s, le)) == multiset(s) + multiset{x}
  {
    if s == [] {
    } else if le(x, s[0]) {
      assert multiset([x] + s) == multiset([x]) + multiset(s);
    } else {
      InsertKeeps(x, s[1..], le);
      assert s == [s[0]] + s[1..];
    }
  }

  /** Whatever the order, sorting keeps the elements. */
  lemma {:induction false} SortKeeps<T>(s: seq<T>, le: (T, T) -> bool, x: T)
    ensures x in Sort(s, le) <==> x in s
  {
    if s != [] {
      var rest := Sort(s[1..], le);
      SortKeeps(s[1..], le, x);
      InsertKeeps(s[0], rest, le);
      assert x in Insert(s[0], rest, le) <==> x in multiset(Insert(s[0], rest, le));
      assert x in rest <==> x in multiset(rest);
    }
  }

  lemma {:induction false} InsertOrders<T(!new)>(x: T, s: seq<T>, le: (T, T) -> bool)
    requires Preorder(le) && Ordered(s, le)
    ensures Ordered(Insert(x, s, le), le)
  {
    if s == [] {
    } else if le(x, s[0]) {
    } else {
      var rest := Insert(x, s[1..], le);
      InsertOrders(x, s[1..], le);
      InsertKeeps(x, s[1..], le);
      forall j | 0 <= j < |rest| ensures le(s[0], rest[j]) {
        assert rest[j] in multiset(rest);
        if rest[j] != x {
          assert rest[j] in multiset(s[1..]);
          var k :| 0 <= k < |s| - 1 && s[1..][k] == rest[j];
          assert s[k + 1] == rest[j];
        }
      }
    }
  }

  /** Sorting loses and invents nothing, and leaves the list in order. */
  lemma {:induction false} SortSorts<T(!new)>(s: seq<T>, le: (T, T) -> bool)
    requires Preorder(le)
    ensures multiset(Sort(s, le)) == multiset(s)
    ensures |Sort(s, le)| == |s|
    ensures Ordered(Sort(s, le), le)
  {
    if s != [] {
      SortSorts(s[1..], le);
      InsertKeeps(s[0], Sort(s[1..], le), le);
      InsertOrders(s[0], Sort(s[1..], le), le);
      assert s == [s[0]] + s[1..];
      assert |multiset(Sort(s, le))| == |Sort(s, le)|;
      assert |multiset(s)| == |s|;
    } else {
      assert multiset(Sort(s, le)) == multiset(s);
    }
  }

  lemma SortMembers<T(!new)>(s: seq<T>, le: (T, T) -> bool, x: T)
    requires Preorder(le)
    ensures x in Sort(s, le) <==> x in s
  {
    SortSorts(s, le);
    assert x in Sort(s, le) <==> x in multiset(Sort(s, le));
    assert x in s <==> x in multiset(s);
  }

  lemma WithoutHead<T>(s: seq<T>)
    requires s != []
    ensures multiset(s[1..]) == multiset(s) - multiset{s[0]}
  {
    assert s == [s[0]] + s[1..];
  }

  lemma OrderedHeadsAgree<T(!new)>(s: seq<T>, t: seq<T>, le: (T, T) -> bool)
    requires Preorder(le) && Separates(le, s) && Ordered(s, le) && Ordered(t, le)
    requires s != [] && t != [] && multiset(s) == multiset(t)
    ensures s[0] == t[0]
  {
    assert s[0] in multiset(t) && t[0] in multiset(s);
    var i :| 0 <= i < |t| && t[i] == s[0];
    var j :| 0 <= j < |s| && s[j] == t[0];
    assert le(s[0], s[0]) && le(t[0], t[0]);
    assert le(t[0], t[i]) && le(s[0], s[j]);
  }

  lemma HeadAndTail<T>(s: seq<T>, t: seq<T>)
    requires s != [] && t != [] && s[0] == t[0] && s[1..] == t[1..]
    ensures s == t
  {
    assert s == [s[0]] + s[1..];
    assert t == [t[0]] + t[1..];
  }

  lemma TailOrdered<T>(s: seq<T>, le: (T, T) -> bool)
    requires s != [] && Ordered(s, le)
    ensures Ordered(s[1..], le)
  {}

  lemma TailSeparates<T(!new)>(s: seq<T>, le: (T, T) -> bool)
    requires s != [] && Separates(le, s)
    ensures Separates(le, s[1..])
  {}

  /** There is one ordered arrangement of a multiset whose members have different keys. */
  lemma {:induction false} OrderedUnique<T(!new)>(s: seq<T>, t: seq<T>, le: (T, T) -> bool)
    requires Preorder(le) && Separates(le, s) && Ordered(s, le) && Ordered(t, le)
    requires multiset(s) == multiset(t)
    ensures s == t
  {
    assert |s| == |multiset(s)| == |multiset(t)| == |t|;
    if s != [] {
      OrderedHeadsAgree(s, t, le);
      WithoutHead(s);
      WithoutHead(t);
      TailOrdered(s, le);
      TailOrdered(t, le);
      TailSeparates(s, le);
      OrderedUnique(s[1..], t[1..], le);
      HeadAndTail(s, t);
    }
  }

  /** Rearranging the input does not change the sorted list, when no two elements share a key. */
  lemma SortIgnoresArrangement<T(!new)>(s: seq<T>, t: seq<T>, le: (T, T) -> bool)
    requires Preorder(le) && Separates(le, s) && multiset(s) == multiset(t)
    ensures Sort(s, le) == Sort(t, le)
  {
    SortSorts(s, le);
    SortSorts(t, le);
    forall x | x in Sort(s, le) ensures x in s { SortMembers(s, le, x); }
    OrderedUnique(Sort(s, le), Sort(t, le), le);
  }

  /** Rearranging the input does not change the sorted list. */
  lemma SortIgnoresOrder<T(!new)>(s: seq<T>, t: seq<T>, le: (T, T) -> bool)
    requires TotalOrder(le) && multiset(s) == multiset(t)
    ensures Sort(s, le) == Sort(t, le)
  {
    SortIgnoresArrangement(s, t, le);
  }

  /** A list already in order is its own sorted form. */
  lemma SortFixes<T(!new)>(s: seq<T>, le: (T, T) -> bool)
    requires TotalOrder(le) && Ordered(s, le)
    ensures Sort(s, le) == s
  {
    SortSorts(s, le);
    OrderedUnique(Sort(s, le), s, le);
  }

  /** Rows already in order stay where they are. */
  lemma {:induction false} SortedStays<T>(s: seq<T>, le: (T, T) -> bool)
    requires forall i, j | 0 <= i < j < |s| :: le(s[i], s[j])
    ensures Sort(s, le) == s
  {
    if s != [] {
      SortedStays(s[1..], le);
      assert |s| > 1 ==> le(s[0], s[1]);
    }
  }

  lemma DistinctSort<T(!new)>(s: seq<T>, le: (T, T) -> bool)
    requires TotalOrder(le)
    ensures Distinct(Sort(s, le)) <==> Distinct(s)
  {
    SortSorts(s, le);
    DistinctCounts(s);
    DistinctCounts(Sort(s, le));
  }

  /** A list is free of repeats exactly when no value is counted twice. */
  lemma {:induction false} DistinctCounts<T>(s: seq<T>)
    ensures Distinct(s) <==> forall x | x in multiset(s) :: multiset(s)[x] == 1
  {
    if s != [] {
      var rest := s[1..];
      DistinctCounts(rest);
      assert s == [s[0]] + rest;
      assert multiset(s) == multiset{s[0]} + multiset(rest);
      if Distinct(s) {
        assert forall i | 0 <= i < |rest| :: rest[i] == s[i + 1];
        assert s[0] !in rest;
        assert s[0] !in multiset(rest);
        assert forall x | x in multiset(rest) :: multiset(rest)[x] == 1;
      }
      if forall x | x in multiset(s) :: multiset(s)[x] == 1 {
        assert multiset(s)[s[0]] == 1;
        assert s[0] !in multiset(rest);
        assert forall x | x in multiset(rest) :: multiset(s)[x] == multiset(rest)[x];
        assert Distinct(rest);
        forall i, j | 0 <= i < j < |s| ensures s[i] != s[j] {
          assert s[j] == rest[j - 1];
          if i > 0 { assert s[i] == rest[i - 1]; } else { assert rest[j - 1] in multiset(rest); }
        }
      }
    }
  }

  function Mapped<A, B>(s: seq<A>, f: A -> B): (r: seq<B>)
    ensures |r| == |s| && forall i | 0 <= i < |s| :: r[i] == f(s[i])
  {
    seq(|s|, i requires 0 <= i < |s| => f(s[i]))
  }

  lemma TakenOut<T>(s: seq<T>, j: nat)
    requires j < |s|
    ensures multiset(s[..j] + s[j + 1..]) == multiset(s) - multiset{s[j]}
    ensures multiset(s) == multiset(s[..j] + s[j + 1..]) + multiset{s[j]}
  {
    assert s == s[..j] + [s[j]] + s[j + 1..];
  }

  /** Rearranging a list rearranges its image. */
  lemma {:induction false} MappedKeepsMultiset<A, B>(p: seq<A>, q: seq<A>, f: A -> B)
    requires multiset(p) == multiset(q)
    ensures multiset(Mapped(p, f)) == multiset(Mapped(q, f))
  {
    assert |p| == |multiset(p)| == |multiset(q)| == |q|;
    if p == [] {
      assert Mapped(p, f) == Mapped(q, f);
    } else {
      assert p[0] in multiset(q);
      var j :| 0 <= j < |q| && q[j] == p[0];
      var rest := q[..j] + q[j + 1..];
      TakenOut(q, j);
      WithoutHead(p);
      MappedKeepsMultiset(p[1..], rest, f);
      MappedHead(p, f);
      MappedTakenOut(q, j, f);
    }
  }

  lemma MappedHead<A, B>(p: seq<A>, f: A -> B)
    requires p != []
    ensures multiset(Mapped(p, f)) == multiset(Mapped(p[1..], f)) + multiset{f(p[0])}
  {
    assert Mapped(p, f) == [f(p[0])] + Mapped(p[1..], f);
  }

  lemma MappedTakenOut<A, B>(q: seq<A>, j: nat, f: A -> B)
    requires j < |q|
    ensures multiset(Mapped(q, f)) == multiset(Mapped(q[..j] + q[j + 1..], f)) + multiset{f(q[j])}
  {
    TakenOut(Mapped(q, f), j);
    assert Mapped(q[..j] + q[j + 1..], f) == Mapped(q, f)[..j] + Mapped(q, f)[j + 1..];
  }

  /** How often `x` occurs among the first `n` elements. */
  function Tally<T(==)>(s: seq<T>, n: nat, x: T): nat
    requires n <= |s|
  {
    if n == 0 then 0 else Tally(s, n - 1, x) + if s[n - 1] == x then 1 else 0
  }

  lemma {:induction false} TallyCounts<T>(s: seq<T>, x: T)
    ensures Tally(s, |s|, x) == multiset(s)[x]
  {
    if s != [] {
      var front := s[..|s| - 1];
      assert s == front + [s[|s| - 1]];
      TallyCounts(front, x);
      TallyPrefix(s, front, |front|, x);
    }
  }

  lemma {:induction false} TallyPrefix<T>(s: seq<T>, t: seq<T>, n: nat, x: T)
    requires n <= |s| && n <= |t| && forall i | 0 <= i < n :: s[i] == t[i]
    ensures Tally(s, n, x) == Tally(t, n, x)
  {
    if n > 0 { TallyPrefix(s, t, n - 1, x); }
  }

  /** Relabelling elements without touching their keys relabels the sorted list. */
  lemma {:induction false} InsertRelabels<A, B>(x: A, s: seq<A>, f: A -> B, le: (A, A) -> bool, le': (B, B) -> bool)
    requires forall a | a in s :: le(x, a) == le'(f(x), f(a))
    ensures Mapped(Insert(x, s, le), f) == Insert(f(x), Mapped(s, f), le')
  {
    if s != [] {
      assert Mapped(s, f)[1..] == Mapped(s[1..], f);
      if !le(x, s[0]) { InsertRelabels(x, s[1..], f, le, le'); }
    }
  }

  lemma {:induction false} SortRelabels<A(!new), B>(s: seq<A>, f: A -> B, le: (A, A) -> bool, le': (B, B) -> bool)
    requires Preorder(le)
    requires forall a, b :: le(a, b) == le'(f(a), f(b))
    ensures Mapped(Sort(s, le), f) == Sort(Mapped(s, f), le')
  {
    if s != [] {
      SortRelabels(s[1..], f, le, le');
      assert Mapped(s, f)[1..] == Mapped(s[1..], f);
      InsertRelabels(s[0], Sort(s[1..], le), f, le, le');
    }
  }

  /** Two repeat-free lists with the same members are rearrangements of each other. */
  lemma SameMembersSameMultiset<T(!new)>(a: seq<T>, b: seq<T>)
    requires Distinct(a)
    ensures (Distinct(b) && (forall key :: key in a <==> key in b)) <==> multiset(a) == multiset(b)
  {
    DistinctCounts(a);
    DistinctCounts(b);
    if multiset(a) == multiset(b) {
      forall key ensures key in a <==> key in b {
        assert key in a <==> key in multiset(a);
        assert key in b <==> key in multiset(b);
      }
    }
    if Distinct(b) && (forall key :: key in a <==> key in b) {
      forall key ensures multiset(a)[key] == multiset(b)[key] {
        assert key in a <==> key in multiset(a);
        assert key in b <==> key in multiset(b);
      }
    }
  }

  lemma {:induction false} InsertAgrees<T>(x: T, s: seq<T>, le: (T, T) -> bool, le': (T, T) -> bool)
    requires forall y | y in s :: le(x, y) == le'(x, y)
    ensures Insert(x, s, le) == Insert(x, s, le')
  {
    if s != [] && !le(x, s[0]) { InsertAgrees(x, s[1..], le, le'); }
  }

  /** Two orders that agree whenever the first element came first in the list sort it the same way. */
  lemma {:induction false} SortAgrees<T(!new)>(s: seq<T>, le: (T, T) -> bool, le': (T, T) -> bool)
    requires Preorder(le)
    requires forall i, j | 0 <= i < j < |s| :: le(s[i], s[j]) == le'(s[i], s[j])
    ensures Sort(s, le) == Sort(s, le')
  {
    if s != [] {
      var rest := s[1..];
      SortAgrees(rest, le, le');
      forall y | y in Sort(rest, le) ensures le(s[0], y) == le'(s[0], y) {
        SortMembers(rest, le, y);
        var j :| 0 <= j < |rest| && rest[j] == y;
        assert s[j + 1] == y;
      }
      InsertAgrees(s[0], Sort(rest, le), le, le');
    }
  }

  // ----- integers -----

  predicate IntLe(a: int, b: int) { a <= b }

  /** The greatest of some integers. */
  function Greatest(s: seq<int>): (m: int)
    requires s != []
    ensures m in s && forall x | x in s :: x <= m
  {
    if |s| == 1 then s[0]
    else
      var rest := Greatest(s[..|s| - 1]);
      assert forall x | x in s :: x in s[..|s| - 1] || x == s[|s| - 1];
      if s[|s| - 1] > rest then s[|s| - 1] else rest
  }

  method MaxOf(s: seq<int>) returns (m: int)
    requires s != []
    ensures m == Greatest(s)
  {
    m := s[0];
    for n := 1 to |s|
      invariant m in s && forall i | 0 <= i < n :: s[i] <= m
    {
      if s[n] > m { m := s[n]; }
    }
  }
}
