/** Reading two lists of observations against a contract and recording every way they fall short. */
module Reconciler {
  import opened Optional
  import opened Documents
  import opened Ordering
  import opened TextOrder
  import opened Contracts
  import opened Observations
  import opened Findings

  /** One observation whose key is usable, with the fields that hold a value of the right kind. */
  datatype Parsed = Parsed(
    key: Value,
    raw: Value,
    occurrence: nat,
    eligible: Option<bool>,
    numbers: map<string, real>)

  /** `groups` is keyed by the observation key itself, `order` lists its keys as they first appeared. */
  datatype ParsedOutput = ParsedOutput(
    identity: Identity,
    groups: map<Value, seq<Parsed>>,
    order: seq<Value>,
    findings: seq<Finding>)

  // ----- gathering findings over an index range -----

  function Gather(n: nat, f: int -> seq<Finding>): seq<Finding> {
    if n == 0 then [] else Gather(n - 1, f) + f(n - 1)
  }

  lemma {:induction false} GatherEmpty(n: nat, f: int -> seq<Finding>)
    ensures Gather(n, f) == [] <==> forall i | 0 <= i < n :: f(i) == []
  {
    if n > 0 { GatherEmpty(n - 1, f); }
  }

  predicate AllQuotable(s: seq<Finding>) { forall i | 0 <= i < |s| :: Quotable(s[i]) }

  lemma {:induction false} GatherQuotable(n: nat, f: int -> seq<Finding>)
    requires forall i | 0 <= i < n :: AllQuotable(f(i))
    ensures AllQuotable(Gather(n, f))
  {
    if n > 0 { GatherQuotable(n - 1, f); }
  }

  // ----- one observation -----

  predicate Rows(observations: seq<Value>) {
    forall i | 0 <= i < |observations| :: observations[i].Object? && Normal(observations[i])
  }

  function KeyOf(row: Value): Value { if row.Object? then Get(row.fields, "key") else Null }

  function FieldFindings(source: string, n: nat, raw: map<string, Value>): seq<Finding> {
    if raw.Keys == OBSERVATION_FIELDS then []
    else [InvalidFields(source, n, Listed(OBSERVATION_FIELDS - raw.Keys), Listed(raw.Keys - OBSERVATION_FIELDS), raw)]
  }

  function EligibilityFindings(source: string, n: nat, raw: map<string, Value>): seq<Finding> {
    if "eligibility" !in raw || raw["eligibility"].Bool? then []
    else [InvalidType(source, n, Get(raw, "key"), "eligibility", "boolean", raw["eligibility"])]
  }

  function NumberFinding(source: string, n: nat, raw: map<string, Value>, name: string): seq<Finding> {
    if name !in raw then []
    else if IsMarker(raw[name]) then [NonFiniteValue(source, n, Get(raw, "key"), name, raw[name])]
    else match raw[name]
      case Whole(_) | Float(_) => []
      case NonFinite(tag) => [NonFiniteValue(source, n, Get(raw, "key"), name, Marker(tag))]
      case other => [InvalidType(source, n, Get(raw, "key"), name, "finite number", other)]
  }

  function NumberFindings(source: string, n: nat, raw: map<string, Value>, names: seq<string>): int -> seq<Finding> {
    i => if 0 <= i < |names| then NumberFinding(source, n, raw, names[i]) else []
  }

  /** The numbers found under the first `n` of the names. */
  function Numbers(raw: map<string, Value>, names: seq<string>, n: nat): map<string, real>
    requires n <= |names|
  {
    if n == 0 then map[]
    else
      var name := names[n - 1];
      var rest := Numbers(raw, names, n - 1);
      if name in raw && Number(raw[name]).Some? then rest[name := Number(raw[name]).value] else rest
  }

  lemma {:induction false} NumbersFound(raw: map<string, Value>, names: seq<string>, n: nat, name: string)
    requires n <= |names|
    ensures name in Numbers(raw, names, n) <==> name in names[..n] && name in raw && Number(raw[name]).Some?
    ensures name in Numbers(raw, names, n) ==> name in raw && Number(raw[name]) == Some(Numbers(raw, names, n)[name])
  {
    if n > 0 {
      NumbersFound(raw, names, n - 1, name);
      assert names[..n] == names[..n - 1] + [names[n - 1]];
    }
  }

  function ParsedRow(row: Value, n: nat): Parsed
    requires row.Object?
  {
    var raw := row.fields;
    Parsed(KeyOf(row), row, n,
      if "eligibility" in raw && raw["eligibility"].Bool? then Some(raw["eligibility"].flag) else None,
      Numbers(raw, NUMERIC_FIELDS, |NUMERIC_FIELDS|))
  }

  /** What one observation contributes to the findings. */
  function RowFindings(source: string, n: nat, row: Value): seq<Finding> {
    if !row.Object? then []
    else if !KeyIsValid(KeyOf(row)) then FieldFindings(source, n, row.fields) + [InvalidKey(source, n, KeyOf(row))]
    else (
      FieldFindings(source, n, row.fields) + EligibilityFindings(source, n, row.fields)
        + Gather(|NUMERIC_FIELDS|, NumberFindings(source, n, row.fields, NUMERIC_FIELDS)))
  }

  function RowsFindings(source: string, observations: seq<Value>): int -> seq<Finding> {
    i => if 0 <= i < |observations| then RowFindings(source, i, observations[i]) else []
  }

  /** An observation with exactly the ten fields, each of the right kind. */
  predicate RowIsValid(row: Value) {
    && row.Object? && row.fields.Keys == OBSERVATION_FIELDS
    && KeyIsValid(row.fields["key"])
    && row.fields["eligibility"].Bool?
    && forall name | name in NUMERIC :: Number(row.fields[name]).Some?
  }

  lemma NumberFindingEmpty(source: string, n: nat, raw: map<string, Value>, name: string)
    requires name in raw
    ensures NumberFinding(source, n, raw, name) == [] <==> Number(raw[name]).Some?
  {}

  lemma NumbersComplete(source: string, n: nat, raw: map<string, Value>, names: seq<string>)
    requires forall name | name in names :: name in raw
    ensures Gather(|names|, NumberFindings(source, n, raw, names)) == []
      <==> forall name | name in names :: Number(raw[name]).Some?
  {
    var f := NumberFindings(source, n, raw, names);
    GatherEmpty(|names|, f);
    forall i | 0 <= i < |names| ensures f(i) == [] <==> Number(raw[names[i]]).Some? {
      NumberFindingEmpty(source, n, raw, names[i]);
    }
  }

  /** A row leaves no finding exactly when it is valid. */
  lemma RowFindingsEmpty(source: string, n: nat, row: Value)
    requires row.Object?
    ensures RowFindings(source, n, row) == [] <==> RowIsValid(row)
  {
    var raw := row.fields;
    if raw.Keys == OBSERVATION_FIELDS && KeyIsValid(KeyOf(row)) {
      assert "key" in raw && "eligibility" in raw;
      NumericFieldsAreAll();
      NumbersComplete(source, n, raw, NUMERIC_FIELDS);
    }
  }

  // ----- grouping by key -----

  predicate Usable(row: Value) { row.Object? && KeyIsValid(KeyOf(row)) }

  function Grouped(observations: seq<Value>, n: nat): (map<Value, seq<Parsed>>, seq<Value>)
    requires n <= |observations|
  {
    if n == 0 then (map[], [])
    else AddRow(Grouped(observations, n - 1), observations[n - 1], n - 1)
  }

  function AddRow(state: (map<Value, seq<Parsed>>, seq<Value>), row: Value, n: nat)
    : (map<Value, seq<Parsed>>, seq<Value>)
  {
    if !Usable(row) then state
    else if KeyOf(row) in state.0 then (state.0[KeyOf(row) := state.0[KeyOf(row)] + [ParsedRow(row, n)]], state.1)
    else (state.0[KeyOf(row) := [ParsedRow(row, n)]], state.1 + [KeyOf(row)])
  }

  function DuplicateFindings(source: string, groups: map<Value, seq<Parsed>>, order: seq<Value>): int -> seq<Finding> {
    i => if 0 <= i < |order| && order[i] in groups && |groups[order[i]]| > 1
         then [Duplicate(source, groups[order[i]][0].key, Occurrences(groups[order[i]]), Raws(groups[order[i]]))]
         else []
  }

  function Occurrences(group: seq<Parsed>): (r: seq<nat>)
    ensures |r| == |group|
  {
    seq(|group|, i requires 0 <= i < |group| => group[i].occurrence)
  }

  function Raws(group: seq<Parsed>): (r: seq<Value>)
    ensures |r| == |group| && forall i | 0 <= i < |group| :: r[i] == group[i].raw
  {
    seq(|group|, i requires 0 <= i < |group| => group[i].raw)
  }

  function Parse(identity: Identity, observations: seq<Value>): ParsedOutput {
    var g := Grouped(observations, |observations|);
    ParsedOutput(identity, g.0, g.1,
      Gather(|observations|, RowsFindings(identity.implementationId, observations))
        + Gather(|g.1|, DuplicateFindings(identity.implementationId, g.0, g.1)))
  }

  method ParseRow(source: string, n: nat, row: Value) returns (parsed: Option<Parsed>, findings: seq<Finding>)
    requires row.Object?
    ensures findings == RowFindings(source, n, row)
    ensures parsed == if KeyIsValid(KeyOf(row)) then Some(ParsedRow(row, n)) else None
  {
    var raw := row.fields;
    findings := FieldFindings(source, n, raw);
    var key := Get(raw, "key");
    if !KeyIsValid(key) {
      return None, findings + [InvalidKey(source, n, key)];
    }
    var eligible, misfit := None, [];
    if "eligibility" in raw {
      if raw["eligibility"].Bool? { eligible := Some(raw["eligibility"].flag); }
      else { misfit := [InvalidType(source, n, key, "eligibility", "boolean", raw["eligibility"])]; }
    }
    assert misfit == EligibilityFindings(source, n, raw);
    var numbers, more := ParseNumbers(source, n, key, raw, NUMERIC_FIELDS);
    return Some(Parsed(key, row, n, eligible, numbers)), findings + misfit + more;
  }

  method ParseNumbers(source: string, n: nat, key: Value, raw: map<string, Value>, names: seq<string>)
    returns (numbers: map<string, real>, findings: seq<Finding>)
    requires key == Get(raw, "key")
    ensures numbers == Numbers(raw, names, |names|)
    ensures findings == Gather(|names|, NumberFindings(source, n, raw, names))
  {
    numbers, findings := map[], [];
    for i := 0 to |names|
      invariant findings == Gather(i, NumberFindings(source, n, raw, names))
      invariant numbers == Numbers(raw, names, i)
    {
      var name := names[i];
      if name in raw {
        var value := raw[name];
        if IsMarker(value) {
          findings := findings + [NonFiniteValue(source, n, key, name, value)];
        } else if value.NonFinite? {
          findings := findings + [NonFiniteValue(source, n, key, name, Marker(value.tag))];
        } else if !value.Whole? && !value.Float? {
          findings := findings + [InvalidType(source, n, key, name, "finite number", value)];
        } else {
          numbers := numbers[name := if value.Whole? then value.whole as real else value.number];
        }
      }
    }
  }

  /** `_parse_output`: one pass filling the groups, a second over the groups for repeats. */
  method ParseOutput(identity: Identity, observations: seq<Value>) returns (output: ParsedOutput)
    requires Rows(observations)
    ensures output == Parse(identity, observations)
  {
    var source := identity.implementationId;
    var groups: map<Value, seq<Parsed>>, order: seq<Value>, findings: seq<Finding> := map[], [], [];
    for n := 0 to |observations|
      invariant (groups, order) == Grouped(observations, n)
      invariant findings == Gather(n, RowsFindings(source, observations))
    {
      var parsed, more := ParseRow(source, n, observations[n]);
      OneMoreRow(source, observations, n);
      findings := findings + more;
      if parsed.Some? {
        var key := parsed.value.key;
        if key in groups { groups := groups[key := groups[key] + [parsed.value]]; }
        else { groups, order := groups[key := [parsed.value]], order + [key]; }
      }
    }
    EveryKeyHasRows(observations);
    var repeats := FlagRepeats(source, groups, order);
    return ParsedOutput(identity, groups, order, findings + repeats);
  }

  lemma OneMoreRow(source: string, observations: seq<Value>, n: nat)
    requires n < |observations|
    ensures Grouped(observations, n + 1) == AddRow(Grouped(observations, n), observations[n], n)
    ensures Gather(n + 1, RowsFindings(source, observations))
      == Gather(n, RowsFindings(source, observations)) + RowFindings(source, n, observations[n])
  {}

  method FlagRepeats(source: string, groups: map<Value, seq<Parsed>>, order: seq<Value>)
    returns (findings: seq<Finding>)
    requires forall key | key in order :: key in groups
    ensures findings == Gather(|order|, DuplicateFindings(source, groups, order))
  {
    findings := [];
    for i := 0 to |order|
      invariant findings == Gather(i, DuplicateFindings(source, groups, order))
    {
      assert order[i] in order;
      var group := groups[order[i]];
      if |group| > 1 {
        findings := findings + [Duplicate(source, group[0].key, Occurrences(group), Raws(group))];
      }
    }
  }

  /** The rows among the first `n` filed under `key`, in order. */
  function Filed(observations: seq<Value>, n: nat, key: Value): seq<Parsed>
    requires n <= |observations|
  {
    if n == 0 then []
    else
      var row := observations[n - 1];
      Filed(observations, n - 1, key)
        + if Usable(row) && KeyOf(row) == key then [ParsedRow(row, n - 1)] else []
  }

  /** The dict of groups is the partition of the usable rows by key, and `order` names each group once. */
  lemma {:induction false} GroupsAreWhole(observations: seq<Value>, n: nat)
    requires n <= |observations|
    ensures var (groups, order) := Grouped(observations, n);
      && Distinct(order)
      && (forall key :: key in order <==> key in groups)
      && (forall key :: key in groups <==> Filed(observations, n, key) != [])
      && (forall key | key in groups :: groups[key] == Filed(observations, n, key))
  {
    if n > 0 { GroupsAreWhole(observations, n - 1); }
  }

  lemma EveryKeyHasRows(observations: seq<Value>)
    ensures var (groups, order) := Grouped(observations, |observations|); forall key | key in order :: key in groups
  {
    GroupsAreWhole(observations, |observations|);
  }
}
