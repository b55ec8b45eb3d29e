/** The component comparer of analysis/pead_daily_reconciliation.py: two row lists indexed by key, exact labels,
    numbers within a per-field tolerance, and the running maxima of the differences. */
module ComponentCompare {
  import opened Rounding
  import opened Ordering

  /** An exact field: an integer, or a list of canonical texts. */
  datatype Label = Count(value: int) | Keys(texts: seq<string>)

  /** A row: its key, its exact labels, and its numbers (the first `exact` of them compared without tolerance). */
  datatype Row<K> = Row(key: K, labels: seq<Label>, numbers: seq<real>)

  datatype Discrepancy<K> =
    | RowMissing(key: K, fromPrimary: bool)
    | LabelDiffers(key: K, field: nat, shown: (Label, Label))
    | NumberDiffers(key: K, field: nat, written: (real, real), difference: real)

  const MoneyTolerance: real := 0.000_000_000_000_000_005

  function Tolerance(field: nat, exact: nat): real { if field < exact then 0.0 else MoneyTolerance }

  predicate DistinctKeys<K(==)>(rows: seq<Row<K>>) {
    forall i, j :: 0 <= i < j < |rows| ==> rows[i].key != rows[j].key
  }

  /** All rows of a level carry the same fields. */
  predicate Shaped<K>(rows: seq<Row<K>>, labels: nat, numbers: nat) {
    forall i :: 0 <= i < |rows| ==> |rows[i].labels| == labels && |rows[i].numbers| == numbers
  }

  function LabelFindings<K>(p: Row<K>, r: Row<K>, n: nat): seq<Discrepancy<K>>
    requires n <= |p.labels| && |p.labels| == |r.labels|
  {
    if n == 0 then [] else
      var a, b := p.labels[n - 1], r.labels[n - 1];
      LabelFindings(p, r, n - 1) + (if a != b then [LabelDiffers(p.key, n - 1, (a, b))] else [])
  }

  function NumberFindings<K>(p: Row<K>, r: Row<K>, exact: nat, n: nat): seq<Discrepancy<K>>
    requires n <= |p.numbers| && |p.numbers| == |r.numbers|
  {
    if n == 0 then [] else
      var x, y := p.numbers[n - 1], r.numbers[n - 1];
      NumberFindings(p, r, exact, n - 1)
      + (if Abs(x - y) > Tolerance(n - 1, exact) then [NumberDiffers(p.key, n - 1, (x, y), Abs(x - y))] else [])
  }

  function RowFindings<K>(p: Row<K>, r: Row<K>, exact: nat): seq<Discrepancy<K>>
    requires |p.labels| == |r.labels| && |p.numbers| == |r.numbers|
  {
    LabelFindings(p, r, |p.labels|) + NumberFindings(p, r, exact, |p.numbers|)
  }

  /** The row of a list with the given key, if any. */
  function Find<K(==)>(rows: seq<Row<K>>, key: K): (r: int)
    ensures -1 <= r < |rows|
    ensures r >= 0 ==> rows[r].key == key
    ensures r < 0 ==> forall i :: 0 <= i < |rows| ==> rows[i].key != key
  {
    if rows == [] then -1
    else if rows[|rows| - 1].key == key then |rows| - 1
    else Find(rows[..|rows| - 1], key)
  }

  function KeysOf<K>(rows: seq<Row<K>>): (r: seq<K>)
    ensures |r| == |rows| && forall i :: 0 <= i < |r| ==> r[i] == rows[i].key
  {
    seq(|rows|, i requires 0 <= i < |rows| => rows[i].key)
  }

  /** The keys of the reference rows that the primary lacks. */
  function Lacking<K(==)>(ps: seq<Row<K>>, rs: seq<Row<K>>): seq<K> {
    if rs == [] then []
    else
      var key := rs[|rs| - 1].key;
      Lacking(ps, rs[..|rs| - 1]) + (if Find(ps, key) < 0 then [key] else [])
  }

  /** All keys of a level, sorted. */
  function LevelKeys<K(==)>(ps: seq<Row<K>>, rs: seq<Row<K>>, order: (K, K) -> bool): seq<K> {
    Sort(KeysOf(ps) + Lacking(ps, rs), order)
  }

  /** What is wrong at one key: its row is missing on a side, or the two rows differ. */
  function KeyFindings<K(==)>(key: K, ps: seq<Row<K>>, rs: seq<Row<K>>, exact: nat, labels: nat, numbers: nat)
    : seq<Discrepancy<K>>
    requires Shaped(ps, labels, numbers) && Shaped(rs, labels, numbers)
  {
    var i, j := Find(ps, key), Find(rs, key);
    if i < 0 || j < 0 then [RowMissing(key, i < 0)] else RowFindings(ps[i], rs[j], exact)
  }

  function FindingsAt<K(==)>(ps: seq<Row<K>>, rs: seq<Row<K>>, exact: nat, labels: nat, numbers: nat)
    : K -> seq<Discrepancy<K>>
    requires Shaped(ps, labels, numbers) && Shaped(rs, labels, numbers)
  {
    (key: K) => KeyFindings(key, ps, rs, exact, labels, numbers)
  }

  lemma {:induction false} OneMoreKey<K>(
      maxima: map<(string, nat), real>, level: string, keys: seq<K>, n: nat, ps: seq<Row<K>>, rs: seq<Row<K>>,
      exact: nat, labels: nat, numbers: nat)
    requires n < |keys| && Shaped(ps, labels, numbers) && Shaped(rs, labels, numbers)
    ensures var at := FindingsAt(ps, rs, exact, labels, numbers);
            Listed(keys, n + 1, at) == Listed(keys, n, at) + KeyFindings(keys[n], ps, rs, exact, labels, numbers)
    ensures var before := MaximaOver(maxima, level, keys, n, ps, rs, labels, numbers);
            MaximaOver(maxima, level, keys, n + 1, ps, rs, labels, numbers)
              == MaximaAtKey(before, level, keys[n], ps, rs, labels, numbers)
  {
  }

  /** What a function lists at the first n keys, one after another. */
  function Listed<K, T>(keys: seq<K>, n: nat, at: K -> seq<T>): seq<T>
    requires n <= |keys|
  {
    if n == 0 then [] else Listed(keys, n - 1, at) + at(keys[n - 1])
  }

  lemma {:induction false} NothingListed<K, T>(keys: seq<K>, n: nat, at: K -> seq<T>)
    requires n <= |keys|
    ensures Listed(keys, n, at) == [] <==> forall m :: 0 <= m < n ==> at(keys[m]) == []
  {
    if n > 0 {
      NothingListed(keys, n - 1, at);
    }
  }

  /** The findings of a level, key by key in sorted order. */
  function Findings<K(==)>(ps: seq<Row<K>>, rs: seq<Row<K>>, order: (K, K) -> bool, exact: nat, labels: nat,
                           numbers: nat): seq<Discrepancy<K>>
    requires Shaped(ps, labels, numbers) && Shaped(rs, labels, numbers)
  {
    var keys := LevelKeys(ps, rs, order);
    Listed(keys, |keys|, FindingsAt(ps, rs, exact, labels, numbers))
  }

  /** Two rows agree: equal labels, and every number within its tolerance. */
  predicate RowAgrees<K>(p: Row<K>, r: Row<K>, exact: nat) {
    && p.labels == r.labels && |p.numbers| == |r.numbers|
    && forall f :: 0 <= f < |p.numbers| ==> Abs(p.numbers[f] - r.numbers[f]) <= Tolerance(f, exact)
  }

  predicate HasKey<K(==)>(rows: seq<Row<K>>, key: K) {
    exists i :: 0 <= i < |rows| && rows[i].key == key
  }

  lemma FindsKey<K>(rows: seq<Row<K>>, key: K)
    ensures Find(rows, key) >= 0 <==> HasKey(rows, key)
  {
  }

  /** The two lists carry the same keys, and rows with equal keys agree. */
  predicate LevelAgrees<K(==)>(ps: seq<Row<K>>, rs: seq<Row<K>>, exact: nat) {
    && (forall i :: 0 <= i < |ps| ==> HasKey(rs, ps[i].key))
    && (forall j :: 0 <= j < |rs| ==> HasKey(ps, rs[j].key))
    && (forall i, j :: 0 <= i < |ps| && 0 <= j < |rs| && ps[i].key == rs[j].key ==> RowAgrees(ps[i], rs[j], exact))
  }

  lemma {:induction false} NoLabelFindings<K>(p: Row<K>, r: Row<K>, n: nat)
    requires n <= |p.labels| && |p.labels| == |r.labels|
    ensures LabelFindings(p, r, n) == [] <==> p.labels[..n] == r.labels[..n]
  {
    if n > 0 {
      NoLabelFindings(p, r, n - 1);
      assert p.labels[..n] == p.labels[..n - 1] + [p.labels[n - 1]];
      assert r.labels[..n] == r.labels[..n - 1] + [r.labels[n - 1]];
    }
  }

  lemma {:induction false} NoNumberFindings<K>(p: Row<K>, r: Row<K>, exact: nat, n: nat)
    requires n <= |p.numbers| && |p.numbers| == |r.numbers|
    ensures NumberFindings(p, r, exact, n) == [] <==>
            forall f :: 0 <= f < n ==> Abs(p.numbers[f] - r.numbers[f]) <= Tolerance(f, exact)
  {
    if n > 0 {
      NoNumberFindings(p, r, exact, n - 1);
    }
  }

  lemma NoRowFindings<K>(p: Row<K>, r: Row<K>, exact: nat)
    requires |p.labels| == |r.labels| && |p.numbers| == |r.numbers|
    ensures RowFindings(p, r, exact) == [] <==> RowAgrees(p, r, exact)
  {
    NoLabelFindings(p, r, |p.labels|);
    NoNumberFindings(p, r, exact, |p.numbers|);
    assert p.labels[..|p.labels|] == p.labels && r.labels[..|r.labels|] == r.labels;
  }

  /** Both sides have the key, and their rows agree. */
  predicate KeyAgrees<K(==)>(key: K, ps: seq<Row<K>>, rs: seq<Row<K>>, exact: nat) {
    var i, j := Find(ps, key), Find(rs, key);
    i >= 0 && j >= 0 && RowAgrees(ps[i], rs[j], exact)
  }

  lemma NoKeyFindings<K>(key: K, ps: seq<Row<K>>, rs: seq<Row<K>>, exact: nat, labels: nat, numbers: nat)
    requires Shaped(ps, labels, numbers) && Shaped(rs, labels, numbers)
    ensures KeyFindings(key, ps, rs, exact, labels, numbers) == [] <==> KeyAgrees(key, ps, rs, exact)
  {
    var i, j := Find(ps, key), Find(rs, key);
    if i >= 0 && j >= 0 {
      NoRowFindings(ps[i], rs[j], exact);
    }
  }

  lemma {:induction false} LackingKeys<K>(ps: seq<Row<K>>, rs: seq<Row<K>>, key: K)
    ensures key in Lacking(ps, rs) <==> HasKey(rs, key) && Find(ps, key) < 0
  {
    if rs != [] {
      var front, last := rs[..|rs| - 1], rs[|rs| - 1];
      LackingKeys(ps, front, key);
      if HasKey(front, key) {
        var i :| 0 <= i < |front| && front[i].key == key;
        assert rs[i].key == key;
      }
      if HasKey(rs, key) && last.key != key {
        var i :| 0 <= i < |rs| && rs[i].key == key;
        assert front[i].key == key;
      }
    }
  }

  /** The keys walked are those of either side. */
  lemma KeyListed<K>(ps: seq<Row<K>>, rs: seq<Row<K>>, order: (K, K) -> bool, key: K)
    ensures key in LevelKeys(ps, rs, order) <==> HasKey(ps, key) || HasKey(rs, key)
  {
    SortKeeps(KeysOf(ps) + Lacking(ps, rs), order, key);
    LackingKeys(ps, rs, key);
    FindsKey(ps, key);
    if HasKey(ps, key) {
      var i :| 0 <= i < |ps| && ps[i].key == key;
      assert KeysOf(ps)[i] == key;
    }
  }

  lemma QuietKey<K>(ps: seq<Row<K>>, rs: seq<Row<K>>, order: (K, K) -> bool, exact: nat, labels: nat, numbers: nat,
                    key: K)
    requires Shaped(ps, labels, numbers) && Shaped(rs, labels, numbers) && (HasKey(ps, key) || HasKey(rs, key))
    requires Findings(ps, rs, order, exact, labels, numbers) == []
    ensures KeyAgrees(key, ps, rs, exact)
  {
    var keys, at := LevelKeys(ps, rs, order), FindingsAt(ps, rs, exact, labels, numbers);
    NothingListed(keys, |keys|, at);
    KeyListed(ps, rs, order, key);
    var n :| 0 <= n < |keys| && keys[n] == key;
    assert at(keys[n]) == [];
    NoKeyFindings(key, ps, rs, exact, labels, numbers);
  }

  lemma {:induction false} AgreesWhenKeysDo<K>(ps: seq<Row<K>>, rs: seq<Row<K>>, order: (K, K) -> bool, exact: nat,
                                               labels: nat, numbers: nat)
    requires DistinctKeys(ps) && DistinctKeys(rs)
    requires Shaped(ps, labels, numbers) && Shaped(rs, labels, numbers)
    requires Findings(ps, rs, order, exact, labels, numbers) == []
    ensures LevelAgrees(ps, rs, exact)
  {
    forall i | 0 <= i < |ps| ensures KeyAgrees(ps[i].key, ps, rs, exact) && HasKey(rs, ps[i].key) {
      assert HasKey(ps, ps[i].key);
      QuietKey(ps, rs, order, exact, labels, numbers, ps[i].key);
      FindsKey(rs, ps[i].key);
    }
    forall j | 0 <= j < |rs| ensures HasKey(ps, rs[j].key) {
      assert HasKey(rs, rs[j].key);
      QuietKey(ps, rs, order, exact, labels, numbers, rs[j].key);
      FindsKey(ps, rs[j].key);
    }
    forall i, j | 0 <= i < |ps| && 0 <= j < |rs| && ps[i].key == rs[j].key ensures RowAgrees(ps[i], rs[j], exact) {
      UniqueFind(ps, i);
      UniqueFind(rs, j);
    }
  }

  lemma {:induction false} KeyAgreesWhenLevelDoes<K>(ps: seq<Row<K>>, rs: seq<Row<K>>, exact: nat, key: K)
    requires LevelAgrees(ps, rs, exact) && (HasKey(ps, key) || HasKey(rs, key))
    ensures KeyAgrees(key, ps, rs, exact)
  {
    FindsKey(ps, key);
    FindsKey(rs, key);
    assert HasKey(ps, key) ==> HasKey(rs, key);
  }

  /** The comparer reports nothing exactly when the two levels agree. */
  lemma {:induction false} NoFindings<K>(ps: seq<Row<K>>, rs: seq<Row<K>>, order: (K, K) -> bool, exact: nat,
                                         labels: nat, numbers: nat)
    requires Shaped(ps, labels, numbers) && Shaped(rs, labels, numbers) && DistinctKeys(ps) && DistinctKeys(rs)
    ensures Findings(ps, rs, order, exact, labels, numbers) == [] <==> LevelAgrees(ps, rs, exact)
  {
    if Findings(ps, rs, order, exact, labels, numbers) == [] {
      AgreesWhenKeysDo(ps, rs, order, exact, labels, numbers);
    }
    if LevelAgrees(ps, rs, exact) {
      var keys, at := LevelKeys(ps, rs, order), FindingsAt(ps, rs, exact, labels, numbers);
      forall n | 0 <= n < |keys| ensures at(keys[n]) == [] {
        KeyListed(ps, rs, order, keys[n]);
        KeyAgreesWhenLevelDoes(ps, rs, exact, keys[n]);
        NoKeyFindings(keys[n], ps, rs, exact, labels, numbers);
      }
      NothingListed(keys, |keys|, at);
    }
  }

  lemma UniqueFind<K>(rows: seq<Row<K>>, j: nat)
    requires DistinctKeys(rows) && j < |rows|
    ensures Find(rows, rows[j].key) == j
  {
    var found := Find(rows, rows[j].key);
    assert found >= 0 && rows[found].key == rows[j].key;
  }

  function Largest(maxima: map<(string, nat), real>, level: string, field: nat): real {
    if (level, field) in maxima then maxima[(level, field)] else 0.0
  }

  /** The maxima once the first n numbers of two rows are compared. */
  function MaximaAfterRow<K>(maxima: map<(string, nat), real>, level: string, p: Row<K>, r: Row<K>,
                             n: nat): map<(string, nat), real>
    requires n <= |p.numbers| && |p.numbers| == |r.numbers|
  {
    if n == 0 then maxima else
      var before := MaximaAfterRow(maxima, level, p, r, n - 1);
      before[(level, n - 1) := Max(Largest(before, level, n - 1), Abs(p.numbers[n - 1] - r.numbers[n - 1]))]
  }

  function MaximaAtKey<K(==)>(maxima: map<(string, nat), real>, level: string, key: K, ps: seq<Row<K>>, rs: seq<Row<K>>,
                              labels: nat, numbers: nat): map<(string, nat), real>
    requires Shaped(ps, labels, numbers) && Shaped(rs, labels, numbers)
  {
    var i, j := Find(ps, key), Find(rs, key);
    if i < 0 || j < 0 then maxima else MaximaAfterRow(maxima, level, ps[i], rs[j], numbers)
  }

  function MaximaOver<K(==)>(maxima: map<(string, nat), real>, level: string, keys: seq<K>, n: nat, ps: seq<Row<K>>,
                             rs: seq<Row<K>>, labels: nat, numbers: nat): map<(string, nat), real>
    requires n <= |keys| && Shaped(ps, labels, numbers) && Shaped(rs, labels, numbers)
  {
    if n == 0 then maxima
    else
      var before := MaximaOver(maxima, level, keys, n - 1, ps, rs, labels, numbers);
      MaximaAtKey(before, level, keys[n - 1], ps, rs, labels, numbers)
  }

  /** The maxima once a level has been walked. */
  function MaximaAfter<K(==)>(maxima: map<(string, nat), real>, level: string, ps: seq<Row<K>>, rs: seq<Row<K>>,
                              order: (K, K) -> bool, labels: nat, numbers: nat): map<(string, nat), real>
    requires Shaped(ps, labels, numbers) && Shaped(rs, labels, numbers)
  {
    var keys := LevelKeys(ps, rs, order);
    MaximaOver(maxima, level, keys, |keys|, ps, rs, labels, numbers)
  }

  lemma {:induction false} RowMaximum<K>(maxima: map<(string, nat), real>, level: string, p: Row<K>, r: Row<K>,
                                         n: nat, f: nat)
    requires n <= |p.numbers| && |p.numbers| == |r.numbers|
    ensures Largest(MaximaAfterRow(maxima, level, p, r, n), level, f) ==
            if f < n then Max(Largest(maxima, level, f), Abs(p.numbers[f] - r.numbers[f]))
            else Largest(maxima, level, f)
  {
    if n > 0 {
      RowMaximum(maxima, level, p, r, n - 1, f);
    }
  }

  /** How far two rows of one key differ in a field. */
  function GapAt<K>(p: Row<K>, r: Row<K>, f: nat): real
    requires f < |p.numbers| && f < |r.numbers|
  {
    Abs(p.numbers[f] - r.numbers[f])
  }

  predicate Shares<K(==)>(key: K, ps: seq<Row<K>>, rs: seq<Row<K>>) { Find(ps, key) >= 0 && Find(rs, key) >= 0 }

  lemma {:induction false} MaximumOver<K>(maxima: map<(string, nat), real>, level: string, keys: seq<K>, n: nat,
                                          ps: seq<Row<K>>, rs: seq<Row<K>>, labels: nat, numbers: nat, f: nat)
    requires n <= |keys| && Shaped(ps, labels, numbers) && Shaped(rs, labels, numbers) && f < numbers
    ensures var m := Largest(MaximaOver(maxima, level, keys, n, ps, rs, labels, numbers), level, f);
            && Largest(maxima, level, f) <= m
            && (forall l :: 0 <= l < n && Shares(keys[l], ps, rs) ==>
                  GapAt(ps[Find(ps, keys[l])], rs[Find(rs, keys[l])], f) <= m)
            && (m == Largest(maxima, level, f)
                || exists l :: 0 <= l < n && Shares(keys[l], ps, rs)
                               && m == GapAt(ps[Find(ps, keys[l])], rs[Find(rs, keys[l])], f))
  {
    if n > 0 {
      MaximumOver(maxima, level, keys, n - 1, ps, rs, labels, numbers, f);
      var before, key := MaximaOver(maxima, level, keys, n - 1, ps, rs, labels, numbers), keys[n - 1];
      if Shares(key, ps, rs) {
        RowMaximum(before, level, ps[Find(ps, key)], rs[Find(rs, key)], numbers, f);
      }
    }
  }

  /** A recorded maximum bounds every difference of its field between rows of one key, and is one of them unless it
      was already there. */
  lemma {:induction false} MaximumIsLargest<K>(maxima: map<(string, nat), real>, level: string, ps: seq<Row<K>>,
                                               rs: seq<Row<K>>, order: (K, K) -> bool, labels: nat,
                                               numbers: nat, f: nat)
    requires Shaped(ps, labels, numbers) && Shaped(rs, labels, numbers) && f < numbers
    requires DistinctKeys(ps) && DistinctKeys(rs)
    ensures var m := Largest(MaximaAfter(maxima, level, ps, rs, order, labels, numbers), level, f);
            && Largest(maxima, level, f) <= m
            && (forall i, j :: 0 <= i < |ps| && 0 <= j < |rs| && ps[i].key == rs[j].key ==> GapAt(ps[i], rs[j], f) <= m)
            && (m == Largest(maxima, level, f)
                || exists i, j :: 0 <= i < |ps| && 0 <= j < |rs| && ps[i].key == rs[j].key
                    && m == GapAt(ps[i], rs[j], f))
  {
    var keys := LevelKeys(ps, rs, order);
    MaximumOver(maxima, level, keys, |keys|, ps, rs, labels, numbers, f);
    var m := Largest(MaximaAfter(maxima, level, ps, rs, order, labels, numbers), level, f);
    forall i, j | 0 <= i < |ps| && 0 <= j < |rs| && ps[i].key == rs[j].key ensures GapAt(ps[i], rs[j], f) <= m {
      UniqueFind(ps, i);
      UniqueFind(rs, j);
      assert HasKey(ps, ps[i].key);
      KeyListed(ps, rs, order, ps[i].key);
      var n :| 0 <= n < |keys| && keys[n] == ps[i].key;
      assert Shares(keys[n], ps, rs);
    }
  }

  /** The comparison's accumulated state: the discrepancy list and, per level and field, the largest difference. */
  class Reconciliation<K(==)> {
    var discrepancies: seq<Discrepancy<K>>
    var maxima: map<(string, nat), real>

    constructor ()
      ensures discrepancies == [] && maxima == map[]
    {
      discrepancies := [];
      maxima := map[];
    }

    /** Compares two rows with the same key, appending what differs and raising the maxima. */
    method CompareRow(level: string, p: Row<K>, r: Row<K>, exact: nat)
      requires |p.labels| == |r.labels| && |p.numbers| == |r.numbers|
      modifies this
      ensures discrepancies == old(discrepancies) + RowFindings(p, r, exact)
      ensures maxima == MaximaAfterRow(old(maxima), level, p, r, |p.numbers|)
    {
      for f := 0 to |p.labels|
        invariant discrepancies == old(discrepancies) + LabelFindings(p, r, f) && maxima == old(maxima)
      {
        if p.labels[f] != r.labels[f] {
          discrepancies := discrepancies + [LabelDiffers(p.key, f, (p.labels[f], r.labels[f]))];
        }
      }
      for f := 0 to |p.numbers|
        invariant discrepancies == old(discrepancies) + LabelFindings(p, r, |p.labels|) + NumberFindings(p, r, exact, f)
        invariant maxima == MaximaAfterRow(old(maxima), level, p, r, f)
      {
        var difference := Abs(p.numbers[f] - r.numbers[f]);
        maxima := maxima[(level, f) := Max(Largest(maxima, level, f), difference)];
        if difference > Tolerance(f, exact) {
          discrepancies := discrepancies + [NumberDiffers(p.key, f, (p.numbers[f], r.numbers[f]), difference)];
        }
      }
    }

    /** One key: its rows are compared when both sides have one, and it is reported missing otherwise. */
    method CompareKey(level: string, key: K, ps: seq<Row<K>>, rs: seq<Row<K>>, primary: map<K, Row<K>>,
                      reference: map<K, Row<K>>, exact: nat, labels: nat, numbers: nat)
      requires Shaped(ps, labels, numbers) && Shaped(rs, labels, numbers)
      requires IndexOf(ps, primary) && IndexOf(rs, reference)
      modifies this
      ensures discrepancies == old(discrepancies) + KeyFindings(key, ps, rs, exact, labels, numbers)
      ensures maxima == MaximaAtKey(old(maxima), level, key, ps, rs, labels, numbers)
    {
      LookedUp(ps, primary, key);
      LookedUp(rs, reference, key);
      if key in primary && key in reference {
        CompareRow(level, primary[key], reference[key], exact);
      } else {
        discrepancies := discrepancies + [RowMissing(key, key !in primary)];
      }
    }

    /** The keys in turn. */
    method CompareKeys(level: string, keys: seq<K>, ps: seq<Row<K>>, rs: seq<Row<K>>, primary: map<K, Row<K>>,
                       reference: map<K, Row<K>>, exact: nat, labels: nat, numbers: nat)
      requires Shaped(ps, labels, numbers) && Shaped(rs, labels, numbers)
      requires IndexOf(ps, primary) && IndexOf(rs, reference)
      modifies this
      ensures discrepancies == old(discrepancies) + Listed(keys, |keys|, FindingsAt(ps, rs, exact, labels, numbers))
      ensures maxima == MaximaOver(old(maxima), level, keys, |keys|, ps, rs, labels, numbers)
    {
      ghost var at := FindingsAt(ps, rs, exact, labels, numbers);
      var n := 0;
      while n < |keys|
        invariant 0 <= n <= |keys|
        invariant discrepancies == old(discrepancies) + Listed(keys, n, at)
        invariant maxima == MaximaOver(old(maxima), level, keys, n, ps, rs, labels, numbers)
      {
        CompareKey(level, keys[n], ps, rs, primary, reference, exact, labels, numbers);
        OneMoreKey(old(maxima), level, keys, n, ps, rs, exact, labels, numbers);
        n := n + 1;
      }
    }

    /** Compares one level. A repeated key on either side is refused before anything is recorded; otherwise the
        list grows by exactly the level's findings, in the order of the keys, and the maxima by its differences. */
    method CompareLevel(level: string, ps: seq<Row<K>>, rs: seq<Row<K>>, order: (K, K) -> bool, exact: nat, labels: nat,
                        numbers: nat) returns (indexed: bool)
      requires Shaped(ps, labels, numbers) && Shaped(rs, labels, numbers)
      modifies this
      ensures indexed <==> DistinctKeys(ps) && DistinctKeys(rs)
      ensures !indexed ==> discrepancies == old(discrepancies) && maxima == old(maxima)
      ensures indexed ==> discrepancies == old(discrepancies) + Findings(ps, rs, order, exact, labels, numbers)
      ensures indexed ==> maxima == MaximaAfter(old(maxima), level, ps, rs, order, labels, numbers)
    {
      var primary, primaryDistinct := Indexed(ps);
      var reference, referenceDistinct := Indexed(rs);
      if !primaryDistinct || !referenceDistinct {
        return false;
      }
      var keys := UnionOf(ps, rs, primary);
      CompareKeys(level, Sort(keys, order), ps, rs, primary, reference, exact, labels, numbers);
      return true;
    }
  }

  /** The keys of both sides, each once. */
  method UnionOf<K(==)>(ps: seq<Row<K>>, rs: seq<Row<K>>, primary: map<K, Row<K>>) returns (keys: seq<K>)
    requires IndexOf(ps, primary)
    ensures keys == KeysOf(ps) + Lacking(ps, rs)
  {
    keys := KeysOf(ps);
    for j := 0 to |rs|
      invariant keys == KeysOf(ps) + Lacking(ps, rs[..j])
    {
      LookedUp(ps, primary, rs[j].key);
      assert rs[..j + 1][..j] == rs[..j];
      if rs[j].key !in primary {
        keys := keys + [rs[j].key];
      }
    }
    assert rs[..|rs|] == rs;
  }

  /** With a total order the keys are walked in it, each once. */
  lemma {:induction false} KeysAreSorted<K(!new)>(ps: seq<Row<K>>, rs: seq<Row<K>>, order: (K, K) -> bool)
    requires TotalOrder(order) && DistinctKeys(ps) && DistinctKeys(rs)
    ensures Ordered(LevelKeys(ps, rs, order), order) && Distinct(LevelKeys(ps, rs, order))
  {
    var keys, more := KeysOf(ps), Lacking(ps, rs);
    SortSorts(keys + more, order);
    DistinctSort(keys + more, order);
    LackingDistinct(ps, rs);
    forall i, j | 0 <= i < j < |keys + more| ensures (keys + more)[i] != (keys + more)[j] {
      if i < |keys| <= j {
        LackingKeys(ps, rs, more[j - |keys|]);
        assert ps[i].key == keys[i];
      }
    }
  }

  lemma {:induction false} LackingDistinct<K>(ps: seq<Row<K>>, rs: seq<Row<K>>)
    requires DistinctKeys(rs)
    ensures Distinct(Lacking(ps, rs))
  {
    if rs != [] {
      var front, last := rs[..|rs| - 1], rs[|rs| - 1];
      LackingDistinct(ps, front);
      LackingKeys(ps, front, last.key);
    }
  }

  predicate IndexOf<K(==)>(rows: seq<Row<K>>, index: map<K, Row<K>>) {
    && (forall i :: 0 <= i < |rows| ==> rows[i].key in index && index[rows[i].key] == rows[i])
    && (forall key :: key in index ==> Find(rows, key) >= 0)
  }

  lemma LookedUp<K>(rows: seq<Row<K>>, index: map<K, Row<K>>, key: K)
    requires IndexOf(rows, index)
    ensures key in index <==> Find(rows, key) >= 0
    ensures key in index ==> index[key] == rows[Find(rows, key)]
  {
  }

  method Indexed<K(==)>(rows: seq<Row<K>>) returns (index: map<K, Row<K>>, distinct: bool)
    ensures distinct <==> DistinctKeys(rows)
    ensures distinct ==> IndexOf(rows, index)
  {
    index := map[];
    for i := 0 to |rows|
      invariant forall a, b :: 0 <= a < b < i ==> rows[a].key != rows[b].key
      invariant forall a :: 0 <= a < i ==> rows[a].key in index && index[rows[a].key] == rows[a]
      invariant forall key :: key in index ==> exists a :: 0 <= a < i && rows[a].key == key
    {
      if rows[i].key in index {
        return index, false;
      }
      index := index[rows[i].key := rows[i]];
    }
    distinct := true;
  }
}
