/** What an implementation hands over: a list of observations, put into canonical form and order. */
module Observations {
  import opened Documents
  import opened Ordering
  import opened Contracts

  const OBSERVATION_FIELDS := NUMERIC + {"key", "eligibility"}

  /** Equal numeric evidence is written the same way, whether 1 or 1.0 was emitted. */
  function AsFloat(v: Value): Value { if v.Whole? then Float(v.whole as real) else v }

  function Settled(fields: map<string, Value>): map<string, Value> {
    map name | name in fields :: if name in NUMERIC then AsFloat(fields[name]) else fields[name]
  }

  predicate IsObservation(v: Value) { v.Object? && Accepted(v) }

  function Canonical(v: Value): (r: Value)
    requires IsObservation(v)
    ensures r.Object? && Normal(r)
  {
    Object(Settled(Normalized(v).fields))
  }

  predicate AllObservations(items: seq<Value>) { forall i | 0 <= i < |items| :: IsObservation(items[i]) }

  function CanonicalRows(items: seq<Value>): (r: seq<Value>)
    requires AllObservations(items)
    ensures |r| == |items| && forall i | 0 <= i < |items| :: r[i] == Canonical(items[i])
  {
    seq(|items|, i requires 0 <= i < |items| => Canonical(items[i]))
  }

  /** `_normalize_observations`: every refusal is a type error, so only which lists pass matters. */
  function NormalizedObservations(v: Value, le: (Value, Value) -> bool): Outcome<seq<Value>> {
    if v.List? && AllObservations(v.items) then Done(Sort(CanonicalRows(v.items), le)) else TypeFault
  }

  method NormalizeObservations(v: Value, le: (Value, Value) -> bool) returns (r: Outcome<seq<Value>>)
    ensures r == NormalizedObservations(v, le)
  {
    if !v.List? { return TypeFault; }
    var normalized: seq<Value> := [];
    for n := 0 to |v.items|
      invariant |normalized| == n
      invariant forall i | 0 <= i < n :: IsObservation(v.items[i]) && normalized[i] == Canonical(v.items[i])
    {
      if !v.items[n].Object? || !Accepted(v.items[n]) { return TypeFault; }
      var item := SettleNumbers(Normalized(v.items[n]).fields);
      normalized := normalized + [Object(item)];
    }
    assert normalized == CanonicalRows(v.items);
    return Done(Sort(normalized, le));
  }

  method SettleNumbers(fields: map<string, Value>) returns (item: map<string, Value>)
    ensures item == Settled(fields)
  {
    item := fields;
    for i := 0 to |NUMERIC_FIELDS|
      invariant item.Keys == fields.Keys
      invariant forall name | name in fields ::
        item[name] == if name in NUMERIC_FIELDS[..i] then AsFloat(fields[name]) else fields[name]
    {
      var name := NUMERIC_FIELDS[i];
      if name in item && item[name].Whole? {
        item := item[name := Float(item[name].whole as real)];
      }
    }
    assert NUMERIC_FIELDS[..|NUMERIC_FIELDS|] == NUMERIC_FIELDS;
    NumericFieldsAreAll();
    assert item == Settled(fields);
  }

  /** The canonical list is the same whatever order the observations were handed over in. */
  lemma OrderOfRowsIsIrrelevant(p: seq<Value>, q: seq<Value>, le: (Value, Value) -> bool)
    requires TotalOrder(le) && multiset(p) == multiset(q)
    ensures NormalizedObservations(List(p), le) == NormalizedObservations(List(q), le)
  {
    if AllObservations(p) { SameMembers(p, q); }
    if AllObservations(q) { SameMembers(q, p); }
    if AllObservations(p) && AllObservations(q) {
      RowsKeepMultiset(p, q);
      SortIgnoresOrder(CanonicalRows(p), CanonicalRows(q), le);
    }
  }

  lemma SameMembers(p: seq<Value>, q: seq<Value>)
    requires multiset(p) == multiset(q) && AllObservations(p)
    ensures AllObservations(q)
  {
    forall i | 0 <= i < |q| ensures IsObservation(q[i]) {
      assert q[i] in multiset(p);
      assert q[i] in p;
    }
  }

  function Tidied(v: Value): Value { if IsObservation(v) then Canonical(v) else v }

  lemma RowsKeepMultiset(p: seq<Value>, q: seq<Value>)
    requires multiset(p) == multiset(q) && AllObservations(p) && AllObservations(q)
    ensures multiset(CanonicalRows(p)) == multiset(CanonicalRows(q))
  {
    MappedKeepsMultiset(p, q, Tidied);
    assert Mapped(p, Tidied) == CanonicalRows(p);
    assert Mapped(q, Tidied) == CanonicalRows(q);
  }

  /** A canonical row read again is unchanged. */
  lemma CanonicalTwice(v: Value)
    requires IsObservation(v)
    ensures IsObservation(Canonical(v)) && Canonical(Canonical(v)) == Canonical(v)
  {
    NormalIsAccepted(Canonical(v));
    assert Settled(Canonical(v).fields) == Canonical(v).fields;
  }

  /** A stored list of observations reads back as itself. */
  lemma StoredRowsReadBack(v: Value, le: (Value, Value) -> bool)
    requires TotalOrder(le) && NormalizedObservations(v, le).Done?
    ensures var rows := NormalizedObservations(v, le).value;
      Normal(List(rows)) && NormalizedObservations(List(rows), le) == Done(rows)
  {
    var rows := NormalizedObservations(v, le).value;
    var given := CanonicalRows(v.items);
    SortSorts(given, le);
    forall i | 0 <= i < |rows|
      ensures Normal(rows[i]) && IsObservation(rows[i]) && Canonical(rows[i]) == rows[i]
    {
      SortMembers(given, le, rows[i]);
      var j :| 0 <= j < |given| && given[j] == rows[i];
      CanonicalTwice(v.items[j]);
    }
    assert CanonicalRows(rows) == rows;
    SortFixes(rows, le);
  }
}
