/** Two parsed outputs set against the contract and each other: every finding, in one list. */
module Comparison {
  import opened Documents
  import opened Ordering
  import opened Contracts
  import opened Rounding
  import opened Findings
  import opened Reconciler

  ghost predicate WellGrouped(o: ParsedOutput) {
    && Distinct(o.order)
    && (forall key :: key in o.order <==> key in o.groups)
    && (forall key | key in o.groups :: o.groups[key] != [])
  }

  function Name(o: ParsedOutput): string { o.identity.implementationId }

  // ----- coverage of the expected keys -----

  function MissingFindings(o: ParsedOutput, keys: seq<Value>): int -> seq<Finding> {
    i => if 0 <= i < |keys| && keys[i] !in o.groups then [MissingExpected(Name(o), keys[i])] else []
  }

  function UnexpectedFindings(o: ParsedOutput, tokens: seq<Value>, keys: seq<Value>): int -> seq<Finding> {
    i => if 0 <= i < |tokens| && tokens[i] in o.groups && o.groups[tokens[i]] != [] && tokens[i] !in keys
         then [Unexpected(Name(o), o.groups[tokens[i]][0].key, Raws(o.groups[tokens[i]]))] else []
  }

  function Coverage(o: ParsedOutput, keys: seq<Value>, le: (Value, Value) -> bool): seq<Finding> {
    var tokens := Sort(o.order, le);
    Gather(|keys|, MissingFindings(o, keys)) + Gather(|tokens|, UnexpectedFindings(o, tokens, keys))
  }

  /** `_expected_coverage_discrepancies`. */
  method ExpectedCoverage(c: Contract, o: ParsedOutput, le: (Value, Value) -> bool) returns (findings: seq<Finding>)
    requires TotalOrder(le) && WellGrouped(o)
    ensures findings == Coverage(o, c.keys, le)
  {
    findings := [];
    for i := 0 to |c.keys|
      invariant findings == Gather(i, MissingFindings(o, c.keys))
    {
      if c.keys[i] !in o.groups { findings := findings + [MissingExpected(Name(o), c.keys[i])]; }
    }
    TokensHaveRows(o, le);
    var surplus := ListUnexpected(o, Sort(o.order, le), c.keys);
    return findings + surplus;
  }

  /** Every token names a group, and no group is empty. */
  ghost predicate Listing(o: ParsedOutput, tokens: seq<Value>) {
    forall i | 0 <= i < |tokens| :: tokens[i] in o.groups && o.groups[tokens[i]] != []
  }

  lemma TokensHaveRows(o: ParsedOutput, le: (Value, Value) -> bool)
    requires TotalOrder(le) && WellGrouped(o)
    ensures Listing(o, Sort(o.order, le))
  {
    var tokens := Sort(o.order, le);
    forall i | 0 <= i < |tokens| ensures tokens[i] in o.groups && o.groups[tokens[i]] != [] {
      SortMembers(o.order, le, tokens[i]);
    }
  }

  method ListUnexpected(o: ParsedOutput, tokens: seq<Value>, keys: seq<Value>) returns (findings: seq<Finding>)
    requires Listing(o, tokens)
    ensures findings == Gather(|tokens|, UnexpectedFindings(o, tokens, keys))
  {
    findings := [];
    for i := 0 to |tokens|
      invariant findings == Gather(i, UnexpectedFindings(o, tokens, keys))
    {
      if tokens[i] !in keys {
        var group := o.groups[tokens[i]];
        findings := findings + [Unexpected(Name(o), group[0].key, Raws(group))];
      }
    }
  }

  // ----- keys one side has and the other lacks -----

  function AbsentFindings(here: ParsedOutput, there: ParsedOutput, tokens: seq<Value>): int -> seq<Finding> {
    i => if 0 <= i < |tokens| && tokens[i] in here.groups && here.groups[tokens[i]] != [] && tokens[i] !in there.groups
         then [MissingRow(here.groups[tokens[i]][0].key, Name(there), Name(here), Raws(here.groups[tokens[i]]))] else []
  }

  method MissingFromOther(here: ParsedOutput, there: ParsedOutput, tokens: seq<Value>)
    returns (findings: seq<Finding>)
    requires Listing(here, tokens)
    ensures findings == Gather(|tokens|, AbsentFindings(here, there, tokens))
  {
    findings := [];
    for i := 0 to |tokens|
      invariant findings == Gather(i, AbsentFindings(here, there, tokens))
    {
      if tokens[i] !in there.groups {
        var group := here.groups[tokens[i]];
        findings := findings + [MissingRow(group[0].key, Name(there), Name(here), Raws(group))];
      }
    }
  }

  // ----- keys both sides have once -----

  function EligibilityMismatch(left: string, a: Parsed, right: string, b: Parsed): seq<Finding> {
    if a.eligible.Some? && b.eligible.Some? && a.eligible != b.eligible
    then [ExactMismatch(a.key, left, a.eligible.value, right, b.eligible.value)] else []
  }

  function NumberMismatch(c: Contract, left: string, a: Parsed, right: string, b: Parsed, name: string): seq<Finding> {
    if name !in a.numbers || name !in b.numbers || name !in c.tolerances then []
    else
      var x, y, t := a.numbers[name], b.numbers[name], c.tolerances[name];
      if Abs(x - y) > AllowedError(t.absolute, t.relative, x, y)
      then [NumericMismatch(a.key, name, left, x, right, y, AllowedError(t.absolute, t.relative, x, y), t)] else []
  }

  function NumberMismatches(c: Contract, left: string, a: Parsed, right: string, b: Parsed, names: seq<string>)
    : int -> seq<Finding>
  {
    i => if 0 <= i < |names| then NumberMismatch(c, left, a, right, b, names[i]) else []
  }

  function PairMismatches(c: Contract, left: string, a: Parsed, right: string, b: Parsed): seq<Finding> {
    EligibilityMismatch(left, a, right, b)
      + Gather(|NUMERIC_FIELDS|, NumberMismatches(c, left, a, right, b, NUMERIC_FIELDS))
  }

  method ComparePair(c: Contract, left: string, a: Parsed, right: string, b: Parsed, names: seq<string>)
    returns (findings: seq<Finding>)
    requires forall name | name in names :: name in c.tolerances
    ensures findings ==
      EligibilityMismatch(left, a, right, b) + Gather(|names|, NumberMismatches(c, left, a, right, b, names))
  {
    findings := [];
    if a.eligible.Some? && b.eligible.Some? {
      if a.eligible.value != b.eligible.value {
        findings := [ExactMismatch(a.key, left, a.eligible.value, right, b.eligible.value)];
      }
    }
    ghost var first := findings;
    for i := 0 to |names|
      invariant findings == first + Gather(i, NumberMismatches(c, left, a, right, b, names))
    {
      var name := names[i];
      if name in a.numbers && name in b.numbers {
        assert name in names;
        var t := c.tolerances[name];
        var allowed := AllowedError(t.absolute, t.relative, a.numbers[name], b.numbers[name]);
        if Abs(a.numbers[name] - b.numbers[name]) > allowed {
          findings := findings
            + [NumericMismatch(a.key, name, left, a.numbers[name], right, b.numbers[name], allowed,
                               c.tolerances[name])];
        }
      }
    }
  }

  function SharedFindings(c: Contract, p: ParsedOutput, r: ParsedOutput, tokens: seq<Value>): int -> seq<Finding> {
    i => if 0 <= i < |tokens| && tokens[i] in p.groups && tokens[i] in r.groups
            && |p.groups[tokens[i]]| == 1 && |r.groups[tokens[i]]| == 1
         then PairMismatches(c, Name(p), p.groups[tokens[i]][0], Name(r), r.groups[tokens[i]][0]) else []
  }

  method CompareShared(c: Contract, p: ParsedOutput, r: ParsedOutput, tokens: seq<Value>)
    returns (findings: seq<Finding>)
    requires Listing(p, tokens) && forall name | name in NUMERIC_FIELDS :: name in c.tolerances
    ensures findings == Gather(|tokens|, SharedFindings(c, p, r, tokens))
  {
    findings := [];
    for i := 0 to |tokens|
      invariant findings == Gather(i, SharedFindings(c, p, r, tokens))
    {
      if tokens[i] in r.groups {
        var here, there := p.groups[tokens[i]], r.groups[tokens[i]];
        if |here| == 1 && |there| == 1 {
          var more := ComparePair(c, Name(p), here[0], Name(r), there[0], NUMERIC_FIELDS);
          findings := findings + more;
        }
      }
    }
  }

  function Compare(c: Contract, p: ParsedOutput, r: ParsedOutput, le: (Value, Value) -> bool): seq<Finding> {
    var here, there := Sort(p.order, le), Sort(r.order, le);
    p.findings + r.findings + Coverage(p, c.keys, le) + Coverage(r, c.keys, le)
      + Gather(|here|, AbsentFindings(p, r, here)) + Gather(|there|, AbsentFindings(r, p, there))
      + Gather(|here|, SharedFindings(c, p, r, here))
  }

  function Recorded(findings: seq<Finding>, le: (Value, Value) -> bool): seq<Value> {
    Sort(Mapped(findings, Document), le)
  }

  /** `_compare_outputs`: all findings, written down and sorted. */
  method CompareOutputs(c: Contract, p: ParsedOutput, r: ParsedOutput, le: (Value, Value) -> bool)
    returns (discrepancies: seq<Value>)
    requires TotalOrder(le) && WellGrouped(p) && WellGrouped(r) && c.tolerances.Keys == NUMERIC
    ensures discrepancies == Recorded(Compare(c, p, r, le), le)
  {
    var first := ExpectedCoverage(c, p, le);
    var second := ExpectedCoverage(c, r, le);
    TokensHaveRows(p, le);
    TokensHaveRows(r, le);
    NumericFieldsAreAll();
    var absent := MissingFromOther(p, r, Sort(p.order, le));
    var surplus := MissingFromOther(r, p, Sort(r.order, le));
    var shared := CompareShared(c, p, r, Sort(p.order, le));
    var findings := p.findings + r.findings + first + second + absent + surplus + shared;
    return Sort(Mapped(findings, Document), le);
  }
}
