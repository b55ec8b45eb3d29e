/** What a discrepancy of the component comparer says, told in the rows of the two sides. */
module ComponentEvidence {
  import opened Ordering
  import opened ComponentCompare

  predicate Has<K(==)>(rows: seq<Row<K>>, key: K) { exists i | 0 <= i < |rows| :: rows[i].key == key }

  /** Rows i and j carry the key. */
  predicate Meet<K(==)>(ps: seq<Row<K>>, rs: seq<Row<K>>, key: K, i: int, j: int) {
    0 <= i < |ps| && 0 <= j < |rs| && ps[i].key == key && rs[j].key == key
  }

  predicate LabelsPart<K>(p: Row<K>, r: Row<K>, f: nat, a: Label, b: Label) {
    f < |p.labels| && f < |r.labels| && p.labels[f] == a && r.labels[f] == b && a != b
  }

  /** The numbers are this far apart: further than zero for an exact field, than five in the eighteenth place
      otherwise. */
  predicate NumbersPart<K>(p: Row<K>, r: Row<K>, exact: nat, f: nat, x: real, y: real, gap: real) {
    && f < |p.numbers| && f < |r.numbers| && p.numbers[f] == x && r.numbers[f] == y
    && gap == (if x >= y then x - y else y - x) && gap > (if f < exact then 0.0 else 0.000000000000000005)
  }

  /** The discrepancy states a fact of the two sides. */
  predicate IsSo<K(==)>(ps: seq<Row<K>>, rs: seq<Row<K>>, exact: nat, d: Discrepancy<K>) {
    match d
    case RowMissing(key, true) => !Has(ps, key) && Has(rs, key)
    case RowMissing(key, false) => Has(ps, key) && !Has(rs, key)
    case LabelDiffers(key, f, (a, b)) =>
      exists i, j | 0 <= i < |ps| && 0 <= j < |rs| :: Meet(ps, rs, key, i, j) && LabelsPart(ps[i], rs[j], f, a, b)
    case NumberDiffers(key, f, (x, y), gap) =>
      exists i, j | 0 <= i < |ps| && 0 <= j < |rs| ::
        Meet(ps, rs, key, i, j) && NumbersPart(ps[i], rs[j], exact, f, x, y, gap)
  }

  // ----- two rows of one key -----

  lemma {:induction false} LabelsTell<K>(p: Row<K>, r: Row<K>, n: nat, d: Discrepancy<K>)
    requires n <= |p.labels| && |p.labels| == |r.labels|
    ensures d in LabelFindings(p, r, n) <==>
            d.LabelDiffers? && d.key == p.key && d.field < n && LabelsPart(p, r, d.field, d.shown.0, d.shown.1)
    ensures Distinct(LabelFindings(p, r, n))
  {
    if n > 0 {
      var last := LabelDiffers(p.key, n - 1, (p.labels[n - 1], r.labels[n - 1]));
      LabelsTell(p, r, n - 1, d);
      LabelsTell(p, r, n - 1, last);
    }
  }

  lemma {:induction false} NumbersTell<K>(p: Row<K>, r: Row<K>, exact: nat, n: nat, d: Discrepancy<K>)
    requires n <= |p.numbers| && |p.numbers| == |r.numbers|
    ensures d in NumberFindings(p, r, exact, n) <==>
            && d.NumberDiffers? && d.key == p.key && d.field < n
            && NumbersPart(p, r, exact, d.field, d.written.0, d.written.1, d.difference)
    ensures Distinct(NumberFindings(p, r, exact, n))
  {
    if n > 0 {
      var x, y := p.numbers[n - 1], r.numbers[n - 1];
      var last := NumberDiffers(p.key, n - 1, (x, y), if x >= y then x - y else y - x);
      NumbersTell(p, r, exact, n - 1, d);
      NumbersTell(p, r, exact, n - 1, last);
    }
  }

  lemma {:induction false} RowsTell<K>(p: Row<K>, r: Row<K>, exact: nat, d: Discrepancy<K>)
    requires |p.labels| == |r.labels| && |p.numbers| == |r.numbers|
    ensures d in RowFindings(p, r, exact) <==>
            && d.key == p.key
            && match d
               case RowMissing(_, _) => false
               case LabelDiffers(_, f, (a, b)) => LabelsPart(p, r, f, a, b)
               case NumberDiffers(_, f, (x, y), gap) => NumbersPart(p, r, exact, f, x, y, gap)
  {
    LabelsTell(p, r, |p.labels|, d);
    NumbersTell(p, r, exact, |p.numbers|, d);
  }

  lemma {:induction false} RowsTellOnce<K>(p: Row<K>, r: Row<K>, exact: nat)
    requires |p.labels| == |r.labels| && |p.numbers| == |r.numbers|
    ensures Distinct(RowFindings(p, r, exact))
  {
    var a, b := LabelFindings(p, r, |p.labels|), NumberFindings(p, r, exact, |p.numbers|);
    forall i, j | 0 <= i < j < |a + b| ensures (a + b)[i] != (a + b)[j] {
      LabelsTell(p, r, |p.labels|, (a + b)[i]);
      NumbersTell(p, r, exact, |p.numbers|, (a + b)[j]);
      NumbersTell(p, r, exact, |p.numbers|, (a + b)[i]);
    }
  }

  // ----- a key -----

  lemma {:induction false} KeyTells<K>(key: K, ps: seq<Row<K>>, rs: seq<Row<K>>, exact: nat, labels: nat, numbers: nat,
                                       d: Discrepancy<K>)
    requires Shaped(ps, labels, numbers) && Shaped(rs, labels, numbers) && DistinctKeys(ps) && DistinctKeys(rs)
    requires Has(ps, key) || Has(rs, key)
    ensures d in KeyFindings(key, ps, rs, exact, labels, numbers) <==> d.key == key && IsSo(ps, rs, exact, d)
  {
    var i, j := Find(ps, key), Find(rs, key);
    if i >= 0 && j >= 0 {
      RowsTell(ps[i], rs[j], exact, d);
      assert Meet(ps, rs, key, i, j);
      forall k, l | Meet(ps, rs, key, k, l) ensures k == i && l == j { Alone(ps, k, i); Alone(rs, l, j); }
    }
  }

  lemma Alone<K>(rows: seq<Row<K>>, k: nat, i: nat)
    requires DistinctKeys(rows) && k < |rows| && i < |rows| && rows[k].key == rows[i].key
    ensures k == i
  {
  }

  lemma {:induction false} KeyTellsOnce<K>(key: K, ps: seq<Row<K>>, rs: seq<Row<K>>, exact: nat, labels: nat,
                                           numbers: nat)
    requires Shaped(ps, labels, numbers) && Shaped(rs, labels, numbers)
    ensures Distinct(KeyFindings(key, ps, rs, exact, labels, numbers))
  {
    var i, j := Find(ps, key), Find(rs, key);
    if i >= 0 && j >= 0 { RowsTellOnce(ps[i], rs[j], exact); }
  }

  // ----- a level -----

  lemma {:induction false} ListedTells<K, T>(keys: seq<K>, n: nat, at: K -> seq<T>, d: T)
    requires n <= |keys|
    ensures d in Listed(keys, n, at) <==> exists m | 0 <= m < n :: d in at(keys[m])
  {
    if n > 0 { ListedTells(keys, n - 1, at, d); }
  }

  lemma {:induction false} ListedOnce<K, T>(keys: seq<K>, n: nat, at: K -> seq<T>, keyOf: T -> K)
    requires n <= |keys| && Distinct(keys)
    requires forall m | 0 <= m < |keys| :: Distinct(at(keys[m])) && forall d | d in at(keys[m]) :: keyOf(d) == keys[m]
    ensures Distinct(Listed(keys, n, at))
  {
    if n > 0 {
      ListedOnce(keys, n - 1, at, keyOf);
      var before, last := Listed(keys, n - 1, at), at(keys[n - 1]);
      forall i, j | 0 <= i < |before| && 0 <= j < |last| ensures before[i] != last[j] {
        ListedTells(keys, n - 1, at, before[i]);
        assert last[j] in last;
      }
    }
  }

  lemma {:induction false} HasTells<K>(rows: seq<Row<K>>, key: K)
    ensures Has(rows, key) <==> HasKey(rows, key)
  {
  }

  lemma {:induction false} SoHasKey<K>(ps: seq<Row<K>>, rs: seq<Row<K>>, exact: nat, d: Discrepancy<K>)
    requires IsSo(ps, rs, exact, d)
    ensures Has(ps, d.key) || Has(rs, d.key)
  {
    match d {
      case RowMissing(_, _) =>
      case LabelDiffers(key, f, (a, b)) =>
        var i, j :| 0 <= i < |ps| && 0 <= j < |rs| && Meet(ps, rs, key, i, j) && LabelsPart(ps[i], rs[j], f, a, b);
      case NumberDiffers(key, f, (x, y), gap) =>
        var i, j :| 0 <= i < |ps| && 0 <= j < |rs| && Meet(ps, rs, key, i, j)
                    && NumbersPart(ps[i], rs[j], exact, f, x, y, gap);
    }
  }

  /** The comparer lists exactly what is so of the two sides. */
  lemma {:induction false} LevelTells<K>(ps: seq<Row<K>>, rs: seq<Row<K>>, order: (K, K) -> bool, exact: nat,
                                         labels: nat, numbers: nat, d: Discrepancy<K>)
    requires Shaped(ps, labels, numbers) && Shaped(rs, labels, numbers) && DistinctKeys(ps) && DistinctKeys(rs)
    ensures d in Findings(ps, rs, order, exact, labels, numbers) <==> IsSo(ps, rs, exact, d)
  {
    var keys, at := LevelKeys(ps, rs, order), FindingsAt(ps, rs, exact, labels, numbers);
    ListedTells(keys, |keys|, at, d);
    HasTells(ps, d.key);
    HasTells(rs, d.key);
    KeyListed(ps, rs, order, d.key);
    if d in Findings(ps, rs, order, exact, labels, numbers) {
      var m :| 0 <= m < |keys| && d in at(keys[m]);
      KeyInLevel(ps, rs, order, m);
      KeyTells(keys[m], ps, rs, exact, labels, numbers, d);
    }
    if IsSo(ps, rs, exact, d) {
      SoHasKey(ps, rs, exact, d);
      var m :| 0 <= m < |keys| && keys[m] == d.key;
      KeyTells(keys[m], ps, rs, exact, labels, numbers, d);
      assert d in at(keys[m]);
    }
  }

  lemma {:induction false} KeyInLevel<K>(ps: seq<Row<K>>, rs: seq<Row<K>>, order: (K, K) -> bool, m: nat)
    requires m < |LevelKeys(ps, rs, order)|
    ensures Has(ps, LevelKeys(ps, rs, order)[m]) || Has(rs, LevelKeys(ps, rs, order)[m])
  {
    var key := LevelKeys(ps, rs, order)[m];
    KeyListed(ps, rs, order, key);
    HasTells(ps, key);
    HasTells(rs, key);
  }

  /** And each once. */
  lemma {:induction false} LevelTellsOnce<K(!new)>(ps: seq<Row<K>>, rs: seq<Row<K>>, order: (K, K) -> bool, exact: nat,
                                                   labels: nat, numbers: nat)
    requires TotalOrder(order)
    requires Shaped(ps, labels, numbers) && Shaped(rs, labels, numbers) && DistinctKeys(ps) && DistinctKeys(rs)
    ensures Distinct(Findings(ps, rs, order, exact, labels, numbers))
  {
    var keys, at := LevelKeys(ps, rs, order), FindingsAt(ps, rs, exact, labels, numbers);
    KeysAreSorted(ps, rs, order);
    var keyOf := (d: Discrepancy<K>) => d.key;
    forall m | 0 <= m < |keys| ensures Distinct(at(keys[m])) && forall d | d in at(keys[m]) :: keyOf(d) == keys[m] {
      KeyInLevel(ps, rs, order, m);
      KeyTellsOnce(keys[m], ps, rs, exact, labels, numbers);
      forall d | d in at(keys[m]) ensures keyOf(d) == keys[m] {
        KeyTells(keys[m], ps, rs, exact, labels, numbers, d);
      }
    }
    ListedOnce(keys, |keys|, at, keyOf);
  }

  // ----- the maxima -----

  predicate GapIs<K>(p: Row<K>, r: Row<K>, f: nat, gap: real) {
    && f < |p.numbers| && f < |r.numbers|
    && gap == if p.numbers[f] >= r.numbers[f] then p.numbers[f] - r.numbers[f] else r.numbers[f] - p.numbers[f]
  }

  /** The largest distance of field f between two rows of one key. */
  predicate LargestGap<K(==)>(ps: seq<Row<K>>, rs: seq<Row<K>>, f: nat, gap: real) {
    && (exists i, j | 0 <= i < |ps| && 0 <= j < |rs| :: ps[i].key == rs[j].key && GapIs(ps[i], rs[j], f, gap))
    && forall i, j | 0 <= i < |ps| && 0 <= j < |rs| && ps[i].key == rs[j].key ::
         f < |ps[i].numbers| && f < |rs[j].numbers|
         && -gap <= ps[i].numbers[f] - rs[j].numbers[f] <= gap
  }

  lemma {:induction false} RowIsEntered<K>(maxima: map<(string, nat), real>, level: string, p: Row<K>, r: Row<K>,
                                           n: nat, key: (string, nat))
    requires n <= |p.numbers| && |p.numbers| == |r.numbers|
    ensures key in MaximaAfterRow(maxima, level, p, r, n) <==> key in maxima || (key.0 == level && key.1 < n)
  {
    if n > 0 { RowIsEntered(maxima, level, p, r, n - 1, key); }
  }

  lemma {:induction false} LevelIsEntered<K>(maxima: map<(string, nat), real>, level: string, keys: seq<K>, n: nat,
                                             ps: seq<Row<K>>, rs: seq<Row<K>>, labels: nat, numbers: nat, f: nat)
    requires n <= |keys| && Shaped(ps, labels, numbers) && Shaped(rs, labels, numbers) && f < numbers
    requires (level, f) !in maxima
    ensures (level, f) in MaximaOver(maxima, level, keys, n, ps, rs, labels, numbers)
      <==> exists l :: 0 <= l < n && Shares(keys[l], ps, rs)
  {
    if n > 0 {
      LevelIsEntered(maxima, level, keys, n - 1, ps, rs, labels, numbers, f);
      var before, key := MaximaOver(maxima, level, keys, n - 1, ps, rs, labels, numbers), keys[n - 1];
      if Shares(key, ps, rs) {
        RowIsEntered(before, level, ps[Find(ps, key)], rs[Find(rs, key)], numbers, (level, f));
      }
    }
  }

  predicate Meets<K(==)>(ps: seq<Row<K>>, rs: seq<Row<K>>) {
    exists i, j | 0 <= i < |ps| && 0 <= j < |rs| :: ps[i].key == rs[j].key
  }

  lemma {:induction false} SharesTell<K>(ps: seq<Row<K>>, rs: seq<Row<K>>, order: (K, K) -> bool)
    ensures (exists l :: 0 <= l < |LevelKeys(ps, rs, order)| && Shares(LevelKeys(ps, rs, order)[l], ps, rs))
      <==> Meets(ps, rs)
  {
    var keys := LevelKeys(ps, rs, order);
    if l :| 0 <= l < |keys| && Shares(keys[l], ps, rs) {
      assert ps[Find(ps, keys[l])].key == rs[Find(rs, keys[l])].key;
    }
    if i, j :| 0 <= i < |ps| && 0 <= j < |rs| && ps[i].key == rs[j].key {
      assert HasKey(ps, ps[i].key) && HasKey(rs, ps[i].key);
      FindsKey(ps, ps[i].key);
      FindsKey(rs, ps[i].key);
      KeyListed(ps, rs, order, ps[i].key);
      var l :| 0 <= l < |keys| && keys[l] == ps[i].key;
    }
  }

  /** A level enters, for each of its numbers, the largest distance between rows of one key, if any rows meet. */
  lemma {:induction false} MaximaTell<K>(maxima: map<(string, nat), real>, level: string, ps: seq<Row<K>>,
                                         rs: seq<Row<K>>, order: (K, K) -> bool, labels: nat, numbers: nat, f: nat)
    requires Shaped(ps, labels, numbers) && Shaped(rs, labels, numbers) && f < numbers
    requires DistinctKeys(ps) && DistinctKeys(rs) && (level, f) !in maxima
    ensures var after := MaximaAfter(maxima, level, ps, rs, order, labels, numbers);
      && ((level, f) in after <==> Meets(ps, rs))
      && ((level, f) in after ==> LargestGap(ps, rs, f, after[(level, f)]))
  {
    var keys, after := LevelKeys(ps, rs, order), MaximaAfter(maxima, level, ps, rs, order, labels, numbers);
    LevelIsEntered(maxima, level, keys, |keys|, ps, rs, labels, numbers, f);
    SharesTell(ps, rs, order);
    if (level, f) in after {
      MaximumIsLargest(maxima, level, ps, rs, order, labels, numbers, f);
      GapIsLargest(ps, rs, labels, numbers, f, after[(level, f)]);
    }
  }

  lemma {:induction false} GapIsLargest<K>(ps: seq<Row<K>>, rs: seq<Row<K>>, labels: nat, numbers: nat, f: nat, m: real)
    requires Shaped(ps, labels, numbers) && Shaped(rs, labels, numbers) && f < numbers && Meets(ps, rs)
    requires forall i, j :: 0 <= i < |ps| && 0 <= j < |rs| && ps[i].key == rs[j].key ==> GapAt(ps[i], rs[j], f) <= m
    requires m == 0.0 || exists i, j :: 0 <= i < |ps| && 0 <= j < |rs| && ps[i].key == rs[j].key
                                        && m == GapAt(ps[i], rs[j], f)
    ensures LargestGap(ps, rs, f, m)
  {
    if m == 0.0 {
      var i, j :| 0 <= i < |ps| && 0 <= j < |rs| && ps[i].key == rs[j].key;
      assert GapAt(ps[i], rs[j], f) <= m;
      assert GapIs(ps[i], rs[j], f, m);
    } else {
      var i, j :| 0 <= i < |ps| && 0 <= j < |rs| && ps[i].key == rs[j].key && m == GapAt(ps[i], rs[j], f);
      assert GapIs(ps[i], rs[j], f, m);
    }
    forall i, j | 0 <= i < |ps| && 0 <= j < |rs| && ps[i].key == rs[j].key
      ensures f < |ps[i].numbers| && f < |rs[j].numbers| && -m <= ps[i].numbers[f] - rs[j].numbers[f] <= m
    {
      assert GapAt(ps[i], rs[j], f) <= m;
    }
  }
}
