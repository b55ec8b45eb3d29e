/** Filing rows under their keys, as `setdefault(key, []).append(row)` does. */
module Grouping {
  import opened Ordering

  /** The rows with a given key, in their order. */
  function Members<T, K(==)>(rows: seq<T>, key: T -> K, k: K): seq<T> {
    if rows == [] then []
    else
      var last := rows[|rows| - 1];
      Members(rows[..|rows| - 1], key, k) + if key(last) == k then [last] else []
  }

  /** The keys in the order they first appear. */
  function KeyList<T, K(==)>(rows: seq<T>, key: T -> K): seq<K> {
    if rows == [] then []
    else
      var known, k := KeyList(rows[..|rows| - 1], key), key(rows[|rows| - 1]);
      if k in known then known else known + [k]
  }

  lemma {:induction false} KeyHasMembers<T, K>(rows: seq<T>, key: T -> K, k: K)
    ensures k in KeyList(rows, key) <==> Members(rows, key, k) != []
  {
    if rows != [] { KeyHasMembers(rows[..|rows| - 1], key, k); }
  }

  lemma {:induction false} KeysAreDistinct<T, K>(rows: seq<T>, key: T -> K)
    ensures Distinct(KeyList(rows, key))
  {
    if rows != [] { KeysAreDistinct(rows[..|rows| - 1], key); }
  }

  /** The dict files every row under its key. */
  ghost predicate Files<T, K(!new)>(groups: map<K, seq<T>>, rows: seq<T>, key: T -> K) {
    forall k :: (k in groups <==> k in KeyList(rows, key)) && (k in groups ==> groups[k] == Members(rows, key, k))
  }

  lemma FiledRows<T, K(!new)>(groups: map<K, seq<T>>, rows: seq<T>, key: T -> K, k: K)
    requires Files(groups, rows, key)
    ensures (if k in groups then groups[k] else []) == Members(rows, key, k)
    ensures k in groups <==> Members(rows, key, k) != []
  {
    KeyHasMembers(rows, key, k);
  }

  method GroupBy<T, K(==, !new)>(rows: seq<T>, key: T -> K) returns (groups: map<K, seq<T>>, order: seq<K>)
    ensures order == KeyList(rows, key)
    ensures Files(groups, rows, key)
  {
    groups, order := map[], [];
    for n := 0 to |rows|
      invariant order == KeyList(rows[..n], key)
      invariant Files(groups, rows[..n], key)
    {
      assert rows[..n + 1][..n] == rows[..n];
      var k := key(rows[n]);
      KeyHasMembers(rows[..n], key, k);
      if k in groups { groups := groups[k := groups[k] + [rows[n]]]; }
      else { groups, order := groups[k := [rows[n]]], order + [k]; }
    }
    assert rows[..|rows|] == rows;
  }

  lemma {:induction false} MembersOfAppend<T, K>(a: seq<T>, b: seq<T>, key: T -> K, k: K)
    ensures Members(a + b, key, k) == Members(a, key, k) + Members(b, key, k)
  {
    if b == [] {
      assert a + b == a;
    } else {
      assert (a + b)[..|a + b| - 1] == a + b[..|b| - 1];
      MembersOfAppend(a, b[..|b| - 1], key, k);
    }
  }

  lemma {:induction false} MembersHaveKey<T, K>(rows: seq<T>, key: T -> K, k: K, i: nat)
    requires i < |Members(rows, key, k)|
    ensures key(Members(rows, key, k)[i]) == k && Members(rows, key, k)[i] in rows
  {
    var front := rows[..|rows| - 1];
    if i < |Members(front, key, k)| { MembersHaveKey(front, key, k, i); }
  }

  lemma MembersOfNext<T, K>(rows: seq<T>, n: nat, key: T -> K, k: K)
    requires n < |rows|
    ensures Members(rows[..n + 1], key, k) == Members(rows[..n], key, k) + if key(rows[n]) == k then [rows[n]] else []
  {
    assert rows[..n + 1][..n] == rows[..n];
  }

  lemma MembersAround<T, K>(a: seq<T>, x: T, b: seq<T>, key: T -> K, k: K)
    ensures Members(a + b, key, k) == Members(a, key, k) + Members(b, key, k)
    ensures Members(a + [x] + b, key, k)
      == Members(a, key, k) + (if key(x) == k then [x] else []) + Members(b, key, k)
  {
    MembersOfAppend(a + [x], b, key, k);
    MembersOfAppend(a, b, key, k);
    assert (a + [x])[..|a|] == a;
  }

  /** Every row is a member of the group of its key, and its key is listed. */
  lemma {:induction false} RowIsMember<T, K>(rows: seq<T>, key: T -> K, x: T)
    requires x in rows
    ensures x in Members(rows, key, key(x)) && key(x) in KeyList(rows, key)
  {
    var front, last := rows[..|rows| - 1], rows[|rows| - 1];
    if x in front { RowIsMember(front, key, x); } else { assert x == last; }
  }

  /** One more row appended to its group. */
  function Placed<T, K(==)>(groups: map<K, seq<T>>, k: K, row: T): map<K, seq<T>> {
    groups[k := (if k in groups then groups[k] else []) + [row]]
  }

  lemma PlacedFiles<T, K(!new)>(groups: map<K, seq<T>>, rows: seq<T>, key: T -> K, row: T)
    requires Files(groups, rows, key)
    ensures Files(Placed(groups, key(row), row), rows + [row], key)
  {
    assert (rows + [row])[..|rows|] == rows;
    KeyHasMembers(rows, key, key(row));
  }

  lemma KeyListNext<T, K>(rows: seq<T>, key: T -> K, row: T)
    ensures KeyList(rows + [row], key) ==
      if key(row) in KeyList(rows, key) then KeyList(rows, key) else KeyList(rows, key) + [key(row)]
  {
    assert (rows + [row])[..|rows|] == rows;
  }

  lemma {:induction false} MembersTally<T, K>(rows: seq<T>, key: T -> K, k: K, x: T)
    ensures multiset(Members(rows, key, k))[x] == if key(x) == k then multiset(rows)[x] else 0
  {
    if rows != [] {
      var front, last := rows[..|rows| - 1], rows[|rows| - 1];
      MembersTally(front, key, k, x);
      assert rows == front + [last];
      assert multiset(rows)[x] == multiset(front)[x] + if last == x then 1 else 0;
    }
  }

  /** Rearranging the rows rearranges every group. */
  lemma MembersIgnoreOrder<T(!new), K>(p: seq<T>, q: seq<T>, key: T -> K, k: K)
    requires multiset(p) == multiset(q)
    ensures multiset(Members(p, key, k)) == multiset(Members(q, key, k))
  {
    forall x ensures multiset(Members(p, key, k))[x] == multiset(Members(q, key, k))[x] {
      MembersTally(p, key, k, x);
      MembersTally(q, key, k, x);
    }
  }

  lemma KeyHasRow<T, K>(rows: seq<T>, key: T -> K, k: K)
    ensures k in KeyList(rows, key) <==> exists x :: x in rows && key(x) == k
  {
    KeyHasMembers(rows, key, k);
    if Members(rows, key, k) != [] { MembersHaveKey(rows, key, k, 0); }
    if x :| x in rows && key(x) == k { RowIsMember(rows, key, x); }
  }

  /** Rearranging the rows lists the same keys. */
  lemma SameKeys<T, K(!new)>(p: seq<T>, q: seq<T>, key: T -> K)
    requires multiset(p) == multiset(q)
    ensures forall k :: k in KeyList(p, key) <==> k in KeyList(q, key)
  {
    forall k ensures k in KeyList(p, key) <==> k in KeyList(q, key) {
      KeyHasRow(p, key, k);
      KeyHasRow(q, key, k);
      assert forall x | x in p :: x in multiset(q);
      assert forall x | x in q :: x in multiset(p);
    }
  }

  // ----- filters -----

  function Filter<T>(s: seq<T>, keep: T -> bool): seq<T> {
    if s == [] then []
    else Filter(s[..|s| - 1], keep) + if keep(s[|s| - 1]) then [s[|s| - 1]] else []
  }

  lemma {:induction false} FilterKeeps<T>(s: seq<T>, keep: T -> bool, x: T)
    ensures x in Filter(s, keep) <==> x in s && keep(x)
  {
    if s != [] { FilterKeeps(s[..|s| - 1], keep, x); }
  }

  lemma FilterNext<T>(s: seq<T>, n: nat, keep: T -> bool)
    requires n < |s|
    ensures Filter(s[..n + 1], keep) == Filter(s[..n], keep) + if keep(s[n]) then [s[n]] else []
  {
    assert s[..n + 1][..n] == s[..n];
  }

  /** Filtering a rearranged list rearranges the filtered list. */
  lemma {:induction false} FilterCount<T>(s: seq<T>, keep: T -> bool, x: T)
    ensures multiset(Filter(s, keep))[x] == if keep(x) then multiset(s)[x] else 0
  {
    if s != [] {
      var front, last := s[..|s| - 1], s[|s| - 1];
      FilterCount(front, keep, x);
      assert s == front + [last];
      assert multiset(s)[x] == multiset(front)[x] + if last == x then 1 else 0;
    }
  }

  lemma FilterIgnoresOrder<T(!new)>(s: seq<T>, t: seq<T>, keep: T -> bool)
    requires multiset(s) == multiset(t)
    ensures multiset(Filter(s, keep)) == multiset(Filter(t, keep))
  {
    forall x ensures multiset(Filter(s, keep))[x] == multiset(Filter(t, keep))[x] {
      FilterCount(s, keep, x);
      FilterCount(t, keep, x);
    }
  }

  // ----- where the kept elements of a list stood -----

  lemma {:induction false} LastKept<T>(s: seq<T>, keep: T -> bool) returns (i: nat)
    requires Filter(s, keep) != []
    ensures i < |s| && keep(s[i]) && s[i] == Filter(s, keep)[|Filter(s, keep)| - 1]
    ensures forall j | i < j < |s| :: !keep(s[j])
  {
    if keep(s[|s| - 1]) { i := |s| - 1; } else { i := LastKept(s[..|s| - 1], keep); }
  }

  lemma {:induction false} KeptGrows<T>(s: seq<T>, keep: T -> bool, i: nat, j: nat)
    requires i <= j <= |s|
    ensures |Filter(s[..i], keep)| <= |Filter(s[..j], keep)|
  {
    if i < j {
      KeptGrows(s, keep, i, j - 1);
      FilterNext(s, j - 1, keep);
    }
  }

  /** An element that is kept stands after those kept before it. */
  lemma {:induction false} KeptAt<T>(s: seq<T>, keep: T -> bool, i: nat, n: nat)
    requires i < n <= |s| && keep(s[i])
    ensures |Filter(s[..i], keep)| < |Filter(s[..n], keep)|
    ensures Filter(s[..n], keep)[|Filter(s[..i], keep)|] == s[i]
  {
    FilterNext(s, n - 1, keep);
    if i < n - 1 { KeptAt(s, keep, i, n - 1); }
  }

  lemma {:induction false} KeptFrom<T>(s: seq<T>, keep: T -> bool, k: nat, n: nat) returns (i: nat)
    requires n <= |s| && k < |Filter(s[..n], keep)|
    ensures i < n && keep(s[i]) && |Filter(s[..i], keep)| == k && s[i] == Filter(s[..n], keep)[k]
  {
    FilterNext(s, n - 1, keep);
    if k < |Filter(s[..n - 1], keep)| { i := KeptFrom(s, keep, k, n - 1); } else { i := n - 1; }
  }

  /** Element i is the only one to be kept. */
  predicate SoleKept<T>(s: seq<T>, keep: T -> bool, i: int) {
    0 <= i < |s| && keep(s[i]) && forall j | 0 <= j < |s| && keep(s[j]) :: j == i
  }

  lemma {:induction false} SoleIsKept<T>(s: seq<T>, keep: T -> bool, i: int)
    requires SoleKept(s, keep, i)
    ensures Filter(s, keep) == [s[i]]
  {
    assert s[..|s|] == s;
    KeptAt(s, keep, i, |s|);
    if |Filter(s, keep)| > 1 {
      var a := KeptFrom(s, keep, 0, |s|);
      var b := KeptFrom(s, keep, 1, |s|);
    }
  }

  lemma {:induction false} KeptIsSole<T>(s: seq<T>, keep: T -> bool) returns (i: nat)
    requires |Filter(s, keep)| == 1
    ensures SoleKept(s, keep, i) && Filter(s, keep) == [s[i]]
  {
    assert s[..|s|] == s;
    i := KeptFrom(s, keep, 0, |s|);
    forall j | 0 <= j < |s| && keep(s[j]) ensures j == i {
      KeptAt(s, keep, j, |s|);
      if j < i { KeptAt(s, keep, j, i); }
      if i < j { KeptAt(s, keep, i, j); }
    }
  }

  // ----- filters and sorting -----

  lemma {:induction false} FilterHead<T>(x: T, s: seq<T>, keep: T -> bool)
    ensures Filter([x] + s, keep) == (if keep(x) then [x] else []) + Filter(s, keep)
  {
    if s == [] {
      assert [x] + s == [x];
      assert [x][..0] == [];
    } else {
      assert ([x] + s)[..|s|] == [x] + s[..|s| - 1];
      FilterHead(x, s[..|s| - 1], keep);
    }
  }

  lemma FilterCons<T>(s: seq<T>, keep: T -> bool)
    requires s != []
    ensures Filter(s, keep) == (if keep(s[0]) then [s[0]] else []) + Filter(s[1..], keep)
  {
    assert s == [s[0]] + s[1..];
    FilterHead(s[0], s[1..], keep);
  }

  lemma {:induction false} FilterInsert<T(!new)>(x: T, s: seq<T>, keep: T -> bool, le: (T, T) -> bool)
    requires Preorder(le) && Ordered(s, le)
    ensures Filter(Insert(x, s, le), keep) == if keep(x) then Insert(x, Filter(s, keep), le) else Filter(s, keep)
  {
    if s == [] {
      FilterCons([x], keep);
    } else if le(x, s[0]) {
      FilterHead(x, s, keep);
      if keep(x) { InsertAtFront(x, Filter(s, keep), s, keep, le); }
    } else {
      FilterHead(s[0], Insert(x, s[1..], le), keep);
      FilterCons(s, keep);
      FilterInsert(x, s[1..], keep, le);
      var kept := Filter(s[1..], keep);
      assert ([s[0]] + kept)[1..] == kept;
      if keep(s[0]) {
        assert Filter(s, keep) == [s[0]] + kept;
        assert Insert(x, [s[0]] + kept, le) == [s[0]] + Insert(x, kept, le);
      } else {
        assert Filter(s, keep) == kept;
      }
    }
  }

  lemma InsertAtFront<T(!new)>(x: T, kept: seq<T>, s: seq<T>, keep: T -> bool, le: (T, T) -> bool)
    requires Preorder(le) && Ordered(s, le) && s != [] && le(x, s[0]) && kept == Filter(s, keep)
    ensures Insert(x, kept, le) == [x] + kept
  {
    if kept != [] {
      FilterKeeps(s, keep, kept[0]);
      var i :| 0 <= i < |s| && s[i] == kept[0];
      assert i == 0 || le(s[0], s[i]);
    }
  }

  lemma SortCons<T>(x: T, s: seq<T>, le: (T, T) -> bool)
    ensures Sort([x] + s, le) == Insert(x, Sort(s, le), le)
  {
    assert ([x] + s)[1..] == s;
  }

  /** Dropping elements and sorting can be done in either order: the sort is stable. */
  lemma {:induction false} FilterOfSort<T(!new)>(s: seq<T>, keep: T -> bool, le: (T, T) -> bool)
    requires Preorder(le)
    ensures Filter(Sort(s, le), keep) == Sort(Filter(s, keep), le)
  {
    if s != [] {
      FilterOfSort(s[1..], keep, le);
      SortSorts(s[1..], le);
      FilterInsert(s[0], Sort(s[1..], le), keep, le);
      FilterCons(s, keep);
      if keep(s[0]) {
        SortCons(s[0], Filter(s[1..], keep), le);
      } else {
        assert Filter(s, keep) == Filter(s[1..], keep);
      }
    }
  }

  lemma {:induction false} FilterCongruent<T>(s: seq<T>, f: T -> bool, g: T -> bool)
    requires forall x | x in s :: f(x) <==> g(x)
    ensures Filter(s, f) == Filter(s, g)
  {
    if s != [] { FilterCongruent(s[..|s| - 1], f, g); }
  }

  /** Keeping some of what was kept is keeping what passes both. */
  lemma {:induction false} FilterTwice<T(!new)>(s: seq<T>, keep: T -> bool, also: T -> bool, both: T -> bool)
    requires forall x :: both(x) <==> keep(x) && also(x)
    ensures Filter(Filter(s, keep), also) == Filter(s, both)
  {
    if s != [] {
      var front, last := s[..|s| - 1], s[|s| - 1];
      FilterTwice(front, keep, also, both);
      if keep(last) {
        var kept := Filter(front, keep) + [last];
        assert kept[..|kept| - 1] == Filter(front, keep) && kept[|kept| - 1] == last;
      } else {
        assert Filter(s, keep) == Filter(front, keep);
      }
    }
  }
}
