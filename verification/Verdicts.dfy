/** What it means that a reconciliation passed: soundness and completeness of the list of findings. */
module Verdicts {
  import opened Documents
  import opened Ordering
  import opened Contracts
  import opened Rounding
  import opened Findings
  import opened Reconciler
  import opened Comparison

  // ----- the property in the terms of its two inputs -----

  function KeysOf(rows: seq<Value>): (r: seq<Value>)
    ensures |r| == |rows| && forall i | 0 <= i < |rows| :: r[i] == KeyOf(rows[i])
  {
    seq(|rows|, i requires 0 <= i < |rows| => KeyOf(rows[i]))
  }

  predicate AllValid(rows: seq<Value>) { forall i | 0 <= i < |rows| :: RowIsValid(rows[i]) }

  /** One valid observation for each expected key, and no others. */
  predicate Complete(keys: seq<Value>, rows: seq<Value>) {
    AllValid(rows) && multiset(KeysOf(rows)) == multiset(keys)
  }

  /** The absolute error and the share of one of the two numbers bear their distance. */
  predicate WithinTolerance(t: Tolerance, x: real, y: real) {
    Abs(x - y) <= t.absolute + t.relative * Abs(x) || Abs(x - y) <= t.absolute + t.relative * Abs(y)
  }

  /** Allowing a share of the larger number is allowing a share of either. */
  lemma LargerAllows(t: Tolerance, x: real, y: real)
    requires ToleranceHolds(t)
    ensures Abs(x - y) <= AllowedError(t.absolute, t.relative, x, y) <==> WithinTolerance(t, x, y)
  {
    LargerShare(t.relative, Abs(x), Abs(y));
  }

  lemma LargerShare(share: real, x: real, y: real)
    requires share >= 0.0
    ensures share * x <= share * Max(x, y) && share * y <= share * Max(x, y)
    ensures Max(x, y) == x || Max(x, y) == y
  {
    if x <= y { ShareGrows(share, x, y); } else { ShareGrows(share, y, x); }
  }

  lemma ShareGrows(share: real, x: real, y: real)
    requires share >= 0.0 && x <= y
    ensures share * x <= share * y
  {
  }

  predicate Tolerant(c: Contract) {
    c.tolerances.Keys == NUMERIC && forall name | name in c.tolerances :: ToleranceHolds(c.tolerances[name])
  }

  predicate NumberAgrees(c: Contract, a: Value, b: Value, name: string)
    requires RowIsValid(a) && RowIsValid(b) && name in NUMERIC
  {
    name in c.tolerances ==>
      WithinTolerance(c.tolerances[name], Number(a.fields[name]).value, Number(b.fields[name]).value)
  }

  /** The same eligibility, and each of the eight numbers within its tolerance. */
  predicate RowsAgree(c: Contract, a: Value, b: Value)
    requires RowIsValid(a) && RowIsValid(b)
  {
    && a.fields["eligibility"] == b.fields["eligibility"]
    && forall name | name in NUMERIC :: NumberAgrees(c, a, b, name)
  }

  ghost predicate Reconciled(c: Contract, left: seq<Value>, right: seq<Value>) {
    && Complete(c.keys, left) && Complete(c.keys, right)
    && forall i, j | 0 <= i < |left| && 0 <= j < |right| && KeyOf(left[i]) == KeyOf(right[j]) ::
         RowsAgree(c, left[i], right[j])
  }

  // ----- a single output -----

  lemma ParseIsWellGrouped(identity: Identity, rows: seq<Value>)
    ensures WellGrouped(Parse(identity, rows))
  {
    GroupsAreWhole(rows, |rows|);
  }

  predicate AllUsable(rows: seq<Value>) { forall i | 0 <= i < |rows| :: Usable(rows[i]) }

  lemma ValidIsUsable(row: Value)
    requires RowIsValid(row)
    ensures Usable(row)
  {}

  lemma ValidAreUsable(rows: seq<Value>)
    requires AllValid(rows)
    ensures AllUsable(rows)
  {
    forall i | 0 <= i < |rows| ensures Usable(rows[i]) { ValidIsUsable(rows[i]); }
  }

  lemma FiledStep(rows: seq<Value>, n: nat, key: Value)
    requires 0 < n <= |rows| && Usable(rows[n - 1])
    ensures |Filed(rows, n, key)| == |Filed(rows, n - 1, key)| + if KeyOf(rows[n - 1]) == key then 1 else 0
  {}

  /** Under usable rows, a key's group has as many members as the key has rows. */
  lemma {:induction false} FiledCounts(rows: seq<Value>, keys: seq<Value>, n: nat, key: Value)
    requires n <= |rows| == |keys|
    requires forall i | 0 <= i < n :: Usable(rows[i]) && keys[i] == KeyOf(rows[i])
    ensures |Filed(rows, n, key)| == Tally(keys, n, key)
  {
    if n > 0 {
      FiledCounts(rows, keys, n - 1, key);
      FiledStep(rows, n, key);
    }
  }

  lemma GroupCounts(identity: Identity, rows: seq<Value>, key: Value)
    requires AllUsable(rows)
    ensures key in Parse(identity, rows).groups <==> key in multiset(KeysOf(rows))
    ensures key in Parse(identity, rows).groups ==> |Parse(identity, rows).groups[key]| == multiset(KeysOf(rows))[key]
  {
    GroupsAreWhole(rows, |rows|);
    FiledCounts(rows, KeysOf(rows), |rows|, key);
    TallyCounts(KeysOf(rows), key);
  }

  lemma RowsLeaveNothing(identity: Identity, rows: seq<Value>)
    requires Rows(rows)
    ensures Gather(|rows|, RowsFindings(identity.implementationId, rows)) == [] <==> AllValid(rows)
  {
    var f := RowsFindings(identity.implementationId, rows);
    GatherEmpty(|rows|, f);
    forall i | 0 <= i < |rows| ensures f(i) == [] <==> RowIsValid(rows[i]) {
      RowFindingsEmpty(identity.implementationId, i, rows[i]);
    }
  }

  /** The groups count the keys: one group per key, with as many members as the key has occurrences. */
  ghost predicate Counted(o: ParsedOutput, keys: seq<Value>) {
    && (forall key :: key in o.order <==> key in keys)
    && forall key | key in o.order :: key in o.groups && |o.groups[key]| == multiset(keys)[key]
  }

  lemma RepeatsLeaveNothing(o: ParsedOutput, keys: seq<Value>)
    requires Counted(o, keys)
    ensures Gather(|o.order|, DuplicateFindings(Name(o), o.groups, o.order)) == [] <==> Distinct(keys)
  {
    var f := DuplicateFindings(Name(o), o.groups, o.order);
    GatherEmpty(|o.order|, f);
    forall i | 0 <= i < |o.order| ensures f(i) == [] <==> multiset(keys)[o.order[i]] == 1 {
      assert o.order[i] in o.order;
      assert o.order[i] in keys;
      assert o.order[i] in multiset(keys);
    }
    DistinctOver(keys, o.order);
  }

  lemma ParseIsCounted(identity: Identity, rows: seq<Value>)
    requires AllUsable(rows)
    ensures Counted(Parse(identity, rows), KeysOf(rows))
  {
    ParseIsWellGrouped(identity, rows);
    forall key { GroupCounts(identity, rows, key); }
  }

  /** A list is free of repeats when each of the values it draws on occurs once. */
  lemma DistinctOver<T>(s: seq<T>, values: seq<T>)
    requires forall x :: x in values <==> x in s
    ensures Distinct(s) <==> forall i | 0 <= i < |values| :: multiset(s)[values[i]] == 1
  {
    DistinctCounts(s);
    forall i | 0 <= i < |values| ensures values[i] in multiset(s) { assert values[i] in s; }
    forall x | x in multiset(s) ensures x in values { assert x in s; }
  }

  /** A parse leaves no finding exactly when every row is valid and no key repeats. */
  lemma ParseLeavesNothing(identity: Identity, rows: seq<Value>)
    requires Rows(rows)
    ensures Parse(identity, rows).findings == [] <==> AllValid(rows) && Distinct(KeysOf(rows))
  {
    RowsLeaveNothing(identity, rows);
    if AllValid(rows) {
      ValidAreUsable(rows);
      ParseIsCounted(identity, rows);
      RepeatsLeaveNothing(Parse(identity, rows), KeysOf(rows));
    }
  }

  lemma MissingNone(o: ParsedOutput, keys: seq<Value>)
    ensures Gather(|keys|, MissingFindings(o, keys)) == [] <==> forall key | key in keys :: key in o.groups
  {
    var f := MissingFindings(o, keys);
    GatherEmpty(|keys|, f);
    assert forall i | 0 <= i < |keys| :: f(i) == [] <==> keys[i] in o.groups;
  }

  lemma UnexpectedNone(o: ParsedOutput, tokens: seq<Value>, keys: seq<Value>)
    requires Listing(o, tokens)
    ensures Gather(|tokens|, UnexpectedFindings(o, tokens, keys)) == [] <==> forall key | key in tokens :: key in keys
  {
    var f := UnexpectedFindings(o, tokens, keys);
    GatherEmpty(|tokens|, f);
    assert forall i | 0 <= i < |tokens| :: f(i) == [] <==> tokens[i] in keys;
  }

  lemma CoverageLeavesNothing(identity: Identity, rows: seq<Value>, keys: seq<Value>, le: (Value, Value) -> bool)
    requires TotalOrder(le) && AllUsable(rows)
    ensures Coverage(Parse(identity, rows), keys, le) == []
      <==> forall key :: key in keys <==> key in KeysOf(rows)
  {
    var o := Parse(identity, rows);
    var tokens := Sort(o.order, le);
    ParseIsWellGrouped(identity, rows);
    TokensHaveRows(o, le);
    MissingNone(o, keys);
    UnexpectedNone(o, tokens, keys);
    forall key
      ensures key in KeysOf(rows) <==> key in o.groups
      ensures key in o.groups <==> key in tokens
    {
      GroupCounts(identity, rows, key);
      SortMembers(o.order, le, key);
    }
  }

  /** One side is complete exactly when neither its parse nor its coverage leaves a finding. */
  lemma SideIsComplete(identity: Identity, rows: seq<Value>, keys: seq<Value>, le: (Value, Value) -> bool)
    requires TotalOrder(le) && Rows(rows) && Distinct(keys)
    ensures Complete(keys, rows)
      <==> Parse(identity, rows).findings == [] && Coverage(Parse(identity, rows), keys, le) == []
  {
    ParseLeavesNothing(identity, rows);
    if AllValid(rows) {
      ValidAreUsable(rows);
      CoverageLeavesNothing(identity, rows, keys, le);
      SameMembersSameMultiset(keys, KeysOf(rows));
    }
  }

  // ----- the two outputs together -----

  /** In a complete output the group of a key is the one row with that key. */
  lemma SoleRow(identity: Identity, keys: seq<Value>, rows: seq<Value>, i: nat)
    requires i < |rows| && Complete(keys, rows) && Distinct(keys)
    ensures KeyOf(rows[i]) in Parse(identity, rows).groups
    ensures Parse(identity, rows).groups[KeyOf(rows[i])] == [ParsedRow(rows[i], i)]
  {
    ValidIsUsable(rows[i]);
    SameMembersSameMultiset(keys, KeysOf(rows));
    OthersDiffer(rows, i);
    FiledAlone(rows, |rows|, i);
    GroupsAreWhole(rows, |rows|);
  }

  lemma OthersDiffer(rows: seq<Value>, i: nat)
    requires i < |rows| && Distinct(KeysOf(rows))
    ensures forall j | 0 <= j < |rows| && j != i :: KeyOf(rows[j]) != KeyOf(rows[i])
  {
    var keys := KeysOf(rows);
    forall j | 0 <= j < |rows| && j != i ensures KeyOf(rows[j]) != KeyOf(rows[i]) {
      assert keys[j] == KeyOf(rows[j]) && keys[i] == KeyOf(rows[i]);
    }
  }

  lemma {:induction false} FiledAlone(rows: seq<Value>, n: nat, i: nat)
    requires n <= |rows| && i < |rows| && Usable(rows[i])
    requires forall j | 0 <= j < |rows| && j != i :: KeyOf(rows[j]) != KeyOf(rows[i])
    ensures Filed(rows, n, KeyOf(rows[i])) == if i < n then [ParsedRow(rows[i], i)] else []
  {
    if n > 0 { FiledAlone(rows, n - 1, i); }
  }

  lemma ParsedNumber(row: Value, n: nat, name: string)
    requires RowIsValid(row) && name in NUMERIC
    ensures name in ParsedRow(row, n).numbers && ParsedRow(row, n).numbers[name] == Number(row.fields[name]).value
  {
    NumericFieldsAreAll();
    NumbersFound(row.fields, NUMERIC_FIELDS, |NUMERIC_FIELDS|, name);
    assert NUMERIC_FIELDS[..|NUMERIC_FIELDS|] == NUMERIC_FIELDS;
  }

  /** Two parsed rows leave no numeric finding exactly when each named pair is within tolerance. */
  lemma NumbersLeaveNothing(c: Contract, left: string, a: Parsed, right: string, b: Parsed, names: seq<string>)
    requires forall name | name in names :: name in a.numbers && name in b.numbers && name in c.tolerances
    requires Tolerant(c)
    ensures Gather(|names|, NumberMismatches(c, left, a, right, b, names)) == []
      <==> forall name | name in names :: WithinTolerance(c.tolerances[name], a.numbers[name], b.numbers[name])
  {
    var f := NumberMismatches(c, left, a, right, b, names);
    GatherEmpty(|names|, f);
    forall k | 0 <= k < |names|
      ensures f(k) == [] <==> WithinTolerance(c.tolerances[names[k]], a.numbers[names[k]], b.numbers[names[k]])
    {
      assert names[k] in names;
      LargerAllows(c.tolerances[names[k]], a.numbers[names[k]], b.numbers[names[k]]);
    }
  }

  /** Parsed rows agree in the sense of the rows they came from. */
  lemma ParsedAgree(c: Contract, a: Value, i: nat, b: Value, j: nat, name: string)
    requires RowIsValid(a) && RowIsValid(b) && name in NUMERIC && name in c.tolerances
    ensures name in ParsedRow(a, i).numbers && name in ParsedRow(b, j).numbers
    ensures NumberAgrees(c, a, b, name)
      <==> WithinTolerance(c.tolerances[name], ParsedRow(a, i).numbers[name], ParsedRow(b, j).numbers[name])
  {
    ParsedNumber(a, i, name);
    ParsedNumber(b, j, name);
  }

  lemma PairLeavesNothing(c: Contract, left: string, a: Value, i: nat, right: string, b: Value, j: nat)
    requires RowIsValid(a) && RowIsValid(b) && Tolerant(c)
    ensures PairMismatches(c, left, ParsedRow(a, i), right, ParsedRow(b, j)) == [] <==> RowsAgree(c, a, b)
  {
    NumericFieldsAreAll();
    var x, y := ParsedRow(a, i), ParsedRow(b, j);
    forall name | name in NUMERIC
      ensures name in x.numbers && name in y.numbers
      ensures NumberAgrees(c, a, b, name) <==> WithinTolerance(c.tolerances[name], x.numbers[name], y.numbers[name])
    {
      ParsedAgree(c, a, i, b, j, name);
    }
    NumbersLeaveNothing(c, left, x, right, y, NUMERIC_FIELDS);
    EligibilityLeavesNothing(left, a, i, right, b, j);
  }

  lemma EligibilityLeavesNothing(left: string, a: Value, i: nat, right: string, b: Value, j: nat)
    requires RowIsValid(a) && RowIsValid(b)
    ensures EligibilityMismatch(left, ParsedRow(a, i), right, ParsedRow(b, j)) == []
      <==> a.fields["eligibility"] == b.fields["eligibility"]
  {}

  lemma NothingAbsent(here: ParsedOutput, there: ParsedOutput, tokens: seq<Value>)
    requires forall key :: key in here.groups ==> key in there.groups
    ensures Gather(|tokens|, AbsentFindings(here, there, tokens)) == []
  {
    GatherEmpty(|tokens|, AbsentFindings(here, there, tokens));
  }

  /** What two complete outputs leave at the token of a shared key is what their two rows leave. */
  lemma SharedAt(c: Contract, left: seq<Value>, right: seq<Value>, tokens: seq<Value>, t: nat, i: nat, j: nat)
    requires Complete(c.keys, left) && Complete(c.keys, right) && Distinct(c.keys) && Tolerant(c)
    requires t < |tokens| && i < |left| && j < |right| && tokens[t] == KeyOf(left[i]) == KeyOf(right[j])
    ensures SharedFindings(c, Parse(c.primary, left), Parse(c.replication, right), tokens)(t) == []
      <==> RowsAgree(c, left[i], right[j])
  {
    SoleRow(c.primary, c.keys, left, i);
    SoleRow(c.replication, c.keys, right, j);
    PairLeavesNothing(c, c.primary.implementationId, left[i], i, c.replication.implementationId, right[j], j);
  }

  lemma SharedSound(c: Contract, left: seq<Value>, right: seq<Value>, tokens: seq<Value>)
    requires Complete(c.keys, left) && Complete(c.keys, right) && Distinct(c.keys) && Tolerant(c)
    requires forall key :: key in tokens <==> key in Parse(c.primary, left).groups
    requires Gather(|tokens|, SharedFindings(c, Parse(c.primary, left), Parse(c.replication, right), tokens)) == []
    ensures Reconciled(c, left, right)
  {
    GatherEmpty(|tokens|, SharedFindings(c, Parse(c.primary, left), Parse(c.replication, right), tokens));
    forall i, j | 0 <= i < |left| && 0 <= j < |right| && KeyOf(left[i]) == KeyOf(right[j])
      ensures RowsAgree(c, left[i], right[j])
    {
      SoleRow(c.primary, c.keys, left, i);
      assert KeyOf(left[i]) in tokens;
      var t :| 0 <= t < |tokens| && tokens[t] == KeyOf(left[i]);
      SharedAt(c, left, right, tokens, t, i, j);
    }
  }

  lemma SharedComplete(c: Contract, left: seq<Value>, right: seq<Value>, tokens: seq<Value>)
    requires Reconciled(c, left, right) && Distinct(c.keys) && Tolerant(c)
    ensures Gather(|tokens|, SharedFindings(c, Parse(c.primary, left), Parse(c.replication, right), tokens)) == []
  {
    var p, r := Parse(c.primary, left), Parse(c.replication, right);
    var f := SharedFindings(c, p, r, tokens);
    forall t | 0 <= t < |tokens| ensures f(t) == [] {
      if tokens[t] in p.groups && tokens[t] in r.groups {
        var i := RowOfToken(c.primary, c.keys, left, tokens[t]);
        var j := RowOfToken(c.replication, c.keys, right, tokens[t]);
        SharedAt(c, left, right, tokens, t, i, j);
      }
    }
    GatherEmpty(|tokens|, f);
  }

  lemma RowOfToken(identity: Identity, keys: seq<Value>, rows: seq<Value>, key: Value) returns (i: nat)
    requires Complete(keys, rows) && key in Parse(identity, rows).groups
    ensures i < |rows| && KeyOf(rows[i]) == key
  {
    ValidAreUsable(rows);
    GroupCounts(identity, rows, key);
    assert key in KeysOf(rows);
    i :| 0 <= i < |KeysOf(rows)| && KeysOf(rows)[i] == key;
  }

  /** The reconciler is sound and complete: it records nothing exactly when each output holds one valid
      observation per expected key and no others, and matching observations agree. */
  lemma PassedMeansReconciled(c: Contract, left: seq<Value>, right: seq<Value>, le: (Value, Value) -> bool)
    requires TotalOrder(le) && ContractHolds(c, le) && Rows(left) && Rows(right)
    ensures Compare(c, Parse(c.primary, left), Parse(c.replication, right), le) == [] <==> Reconciled(c, left, right)
  {
    var p, r := Parse(c.primary, left), Parse(c.replication, right);
    SideIsComplete(c.primary, left, c.keys, le);
    SideIsComplete(c.replication, right, c.keys, le);
    if Complete(c.keys, left) && Complete(c.keys, right) {
      var here, there := Sort(p.order, le), Sort(r.order, le);
      ParseIsWellGrouped(c.primary, left);
      ValidAreUsable(left);
      ValidAreUsable(right);
      forall key ensures key in p.groups <==> key in r.groups {
        GroupCounts(c.primary, left, key);
        GroupCounts(c.replication, right, key);
      }
      forall key ensures key in here <==> key in p.groups { SortMembers(p.order, le, key); }
      NothingAbsent(p, r, here);
      NothingAbsent(r, p, there);
      if Gather(|here|, SharedFindings(c, p, r, here)) == [] { SharedSound(c, left, right, here); }
      if Reconciled(c, left, right) { SharedComplete(c, left, right, here); }
    }
  }

  /** The recorded list is empty exactly when there is nothing to record. */
  lemma RecordedEmpty(findings: seq<Finding>, le: (Value, Value) -> bool)
    requires TotalOrder(le)
    ensures Recorded(findings, le) == [] <==> findings == []
  {
    SortSorts(Mapped(findings, Document), le);
  }

  function Swapped(c: Contract): Contract { c.(primary := c.replication, replication := c.primary) }

  /** Agreement does not depend on which output is called primary. */
  lemma ReconciledIsSymmetric(c: Contract, left: seq<Value>, right: seq<Value>, le: (Value, Value) -> bool)
    requires TotalOrder(le) && ContractHolds(c, le) && Rows(left) && Rows(right)
    ensures Compare(c, Parse(c.primary, left), Parse(c.replication, right), le) == []
      <==> Compare(Swapped(c), Parse(c.replication, right), Parse(c.primary, left), le) == []
  {
    PassedMeansReconciled(c, left, right, le);
    PassedMeansReconciled(Swapped(c), right, left, le);
    if Reconciled(c, left, right) { SwappedStillReconciled(c, left, right); }
    if Reconciled(Swapped(c), right, left) { SwappedStillReconciled(Swapped(c), right, left); }
  }

  lemma ToleranceIsSymmetric(t: Tolerance, x: real, y: real)
    ensures WithinTolerance(t, x, y) <==> WithinTolerance(t, y, x)
  {
    assert Abs(x - y) == Abs(y - x);
  }

  lemma RowsAgreeIsSymmetric(c: Contract, a: Value, b: Value)
    requires RowIsValid(a) && RowIsValid(b) && RowsAgree(c, a, b)
    ensures RowsAgree(Swapped(c), b, a)
  {
    forall name | name in NUMERIC ensures NumberAgrees(Swapped(c), b, a, name) {
      assert NumberAgrees(c, a, b, name);
      if name in c.tolerances {
        ToleranceIsSymmetric(c.tolerances[name], Number(a.fields[name]).value, Number(b.fields[name]).value);
      }
    }
  }

  lemma SwappedStillReconciled(c: Contract, left: seq<Value>, right: seq<Value>)
    requires Reconciled(c, left, right)
    ensures Reconciled(Swapped(c), right, left)
  {
    forall i, j | 0 <= i < |right| && 0 <= j < |left| && KeyOf(right[i]) == KeyOf(left[j])
      ensures RowsAgree(Swapped(c), right[i], left[j])
    {
      RowsAgreeIsSymmetric(c, left[j], right[i]);
    }
  }
}
