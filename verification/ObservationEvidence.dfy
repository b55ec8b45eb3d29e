/** What a list of observations becomes, told field by field. */
module ObservationEvidence {
  import opened Ordering
  import opened Documents
  import opened Contracts
  import opened Observations

  /** The eight money-path numbers. */
  predicate IsNumber(name: string) {
    || name == "signal" || name == "rank" || name == "target" || name == "order" || name == "position"
    || name == "cash" || name == "fees" || name == "pnl"
  }

  /** The row has the observation's fields, each normalized, and whole numbers among the eight made floats. */
  predicate Settles(raw: Value, row: Value) {
    && raw.Object? && Accepted(raw) && row.Object? && row.fields.Keys == raw.fields.Keys
    && forall name | name in raw.fields :: Becomes(name, raw.fields[name], row.fields[name])
  }

  predicate Becomes(name: string, raw: Value, made: Value)
    requires Accepted(raw)
  {
    var x := Normalized(raw);
    made == if IsNumber(name) && x.Whole? then Float(x.whole as real) else x
  }

  /** The rows, one for each observation, in order. */
  ghost predicate SettlesAll(v: Value, rows: seq<Value>, le: (Value, Value) -> bool) {
    && v.List? && (forall i, j | 0 <= i < j < |rows| :: le(rows[i], rows[j]))
    && exists settled :: multiset(settled) == multiset(rows) && OneByOne(v.items, settled)
  }

  predicate OneByOne(items: seq<Value>, rows: seq<Value>) {
    |rows| == |items| && forall i | 0 <= i < |rows| :: Settles(items[i], rows[i])
  }

  lemma {:induction false} FieldTells(raw: Value, name: string)
    requires IsObservation(raw) && name in raw.fields
    ensures name in Canonical(raw).fields && Accepted(raw.fields[name])
    ensures Becomes(name, raw.fields[name], Canonical(raw).fields[name])
  {
    assert Normalized(raw).fields[name] == Normalized(raw.fields[name]);
  }

  lemma {:induction false} CanonicalSettles(raw: Value)
    requires IsObservation(raw)
    ensures Settles(raw, Canonical(raw))
  {
    forall name | name in raw.fields ensures Becomes(name, raw.fields[name], Canonical(raw).fields[name]) {
      FieldTells(raw, name);
    }
  }

  lemma {:induction false} SettlesOnce(raw: Value, a: Value, b: Value)
    requires Settles(raw, a) && Settles(raw, b)
    ensures a == b
  {
    forall name | name in a.fields ensures a.fields[name] == b.fields[name] {
      assert Becomes(name, raw.fields[name], a.fields[name]) && Becomes(name, raw.fields[name], b.fields[name]);
    }
    SameFields(a.fields, b.fields);
  }

  lemma {:induction false} SettleTells(raw: Value, row: Value)
    ensures Settles(raw, row) <==> IsObservation(raw) && row == Canonical(raw)
  {
    if IsObservation(raw) {
      CanonicalSettles(raw);
      if Settles(raw, row) { SettlesOnce(raw, row, Canonical(raw)); }
    }
  }

  lemma SameFields(a: map<string, Value>, b: map<string, Value>)
    requires a.Keys == b.Keys && forall name | name in a :: a[name] == b[name]
    ensures a == b
  {
  }

  lemma {:induction false} RowsTell(items: seq<Value>, rows: seq<Value>)
    ensures OneByOne(items, rows) <==> AllObservations(items) && rows == CanonicalRows(items)
  {
    forall i | 0 <= i < |items| && i < |rows| ensures Settles(items[i], rows[i]) <==>
        IsObservation(items[i]) && rows[i] == Canonical(items[i])
    {
      SettleTells(items[i], rows[i]);
    }
    if OneByOne(items, rows) {
      assert AllObservations(items);
      assert rows == CanonicalRows(items);
    }
  }

  /** The list comes back so, and only then. */
  lemma {:induction false} ObservationsTell(v: Value, rows: seq<Value>, le: (Value, Value) -> bool)
    requires TotalOrder(le)
    ensures NormalizedObservations(v, le) == Done(rows) <==> SettlesAll(v, rows, le)
  {
    if NormalizedObservations(v, le) == Done(rows) {
      var settled := CanonicalRows(v.items);
      SortSorts(settled, le);
      RowsTell(v.items, settled);
      assert forall i, j | 0 <= i < j < |rows| :: le(rows[i], rows[j]);
    }
    if SettlesAll(v, rows, le) {
      var settled :| multiset(settled) == multiset(rows) && OneByOne(v.items, settled);
      RowsTell(v.items, settled);
      SortSorts(settled, le);
      OrderedUnique(Sort(settled, le), rows, le);
    }
  }
}
