/** The discrepancies a reconciliation can record, and the document each one is written as. */
module Findings {
  import opened Documents
  import opened Contracts
  import opened Rounding

  datatype Finding =
    | InvalidFields(source: string, occurrence: nat, missing: seq<string>, extra: seq<string>, raw: map<string, Value>)
    | InvalidKey(source: string, occurrence: nat, key: Value)
    | InvalidType(source: string, occurrence: nat, key: Value, field: string, expected: string, value: Value)
    | NonFiniteValue(source: string, occurrence: nat, key: Value, field: string, value: Value)
    | Duplicate(source: string, key: Value, occurrences: seq<nat>, rows: seq<Value>)
    | MissingExpected(source: string, key: Value)
    | Unexpected(source: string, key: Value, rows: seq<Value>)
    | MissingRow(key: Value, missingFrom: string, presentIn: string, rows: seq<Value>)
    | ExactMismatch(key: Value, left: string, leftValue: bool, right: string, rightValue: bool)
    | NumericMismatch(key: Value, field: string, left: string, leftNumber: real, right: string, rightNumber: real,
                      allowed: real, tolerance: Tolerance)

  function Texts(names: seq<string>): Value {
    List(seq(|names|, i requires 0 <= i < |names| => Text(names[i])))
  }

  function Wholes(numbers: seq<nat>): Value {
    List(seq(|numbers|, i requires 0 <= i < |numbers| => Whole(numbers[i])))
  }

  function Side(source: string, value: Value): Value {
    Object(map["implementation_id" := Text(source), "value" := value])
  }

  function Document(f: Finding): Value {
    match f
    case InvalidFields(source, n, missing, extra, raw) =>
      Object(map["kind" := Text("invalid_observation_fields"), "implementation_id" := Text(source),
                 "occurrence" := Whole(n), "missing_fields" := Texts(missing), "extra_fields" := Texts(extra),
                 "observation" := Object(raw)])
    case InvalidKey(source, n, key) =>
      Object(map["kind" := Text("invalid_observation_key"), "implementation_id" := Text(source),
                 "occurrence" := Whole(n), "key" := key])
    case InvalidType(source, n, key, field, expected, value) =>
      Object(map["kind" := Text("invalid_value_type"), "implementation_id" := Text(source), "occurrence" := Whole(n),
                 "key" := key, "field" := Text(field), "expected" := Text(expected), "value" := value])
    case NonFiniteValue(source, n, key, field, value) =>
      Object(map["kind" := Text("nonfinite_value"), "implementation_id" := Text(source), "occurrence" := Whole(n),
                 "key" := key, "field" := Text(field), "value" := value])
    case Duplicate(source, key, occurrences, rows) =>
      Object(map["kind" := Text("duplicate_observation"), "implementation_id" := Text(source), "key" := key,
                 "count" := Whole(|rows|), "occurrences" := Wholes(occurrences), "observations" := List(rows)])
    case MissingExpected(source, key) =>
      Object(map["kind" := Text("missing_expected_observation"), "implementation_id" := Text(source), "key" := key])
    case Unexpected(source, key, rows) =>
      Object(map["kind" := Text("unexpected_observation"), "implementation_id" := Text(source), "key" := key,
                 "observations" := List(rows)])
    case MissingRow(key, missingFrom, presentIn, rows) =>
      Object(map["kind" := Text("missing_observation"), "key" := key, "missing_from" := Text(missingFrom),
                 "present_in" := Text(presentIn), "present_observations" := List(rows)])
    case ExactMismatch(key, left, leftValue, right, rightValue) =>
      Object(map["kind" := Text("exact_mismatch"), "key" := key, "field" := Text("eligibility"),
                 "primary" := Side(left, Bool(leftValue)), "replication" := Side(right, Bool(rightValue))])
    case NumericMismatch(key, field, left, leftNumber, right, rightNumber, allowed, tolerance) =>
      Object(map["kind" := Text("numeric_mismatch"), "key" := key, "field" := Text(field),
                 "primary" := Side(left, Float(leftNumber)), "replication" := Side(right, Float(rightNumber)),
                 "absolute_error" := Float(Abs(leftNumber - rightNumber)), "allowed_error" := Float(allowed),
                 "tolerance" := TolerancePayload(tolerance)])
  }

  /** Every value a finding quotes is in normal form. */
  predicate Quotable(f: Finding) {
    match f
    case InvalidFields(_, _, _, _, raw) => Normal(Object(raw))
    case InvalidKey(_, _, key) => Normal(key)
    case InvalidType(_, _, key, _, _, value) => Normal(key) && Normal(value)
    case NonFiniteValue(_, _, key, _, value) => Normal(key) && Normal(value)
    case Duplicate(_, key, _, rows) => Normal(key) && Normal(List(rows))
    case MissingExpected(_, key) => Normal(key)
    case Unexpected(_, key, rows) => Normal(key) && Normal(List(rows))
    case MissingRow(key, _, _, rows) => Normal(key) && Normal(List(rows))
    case ExactMismatch(key, _, _, _, _) => Normal(key)
    case NumericMismatch(key, _, _, _, _, _, _, _) => Normal(key)
  }

  /** A finding that quotes normal values is written as a normal document. */
  lemma DocumentIsNormal(f: Finding)
    requires Quotable(f)
    ensures Normal(Document(f))
  {
    var d := Document(f).fields;
    match f
    case InvalidFields(_, _, missing, extra, _) =>
      assert Normal(Texts(missing)) && Normal(Texts(extra));
      assert forall k | k in d :: Normal(d[k]);
    case Duplicate(_, _, occurrences, _) =>
      assert Normal(Wholes(occurrences));
      assert forall k | k in d :: Normal(d[k]);
    case ExactMismatch(_, _, _, _, _) => MismatchIsNormal(f);
    case NumericMismatch(_, _, _, _, _, _, _, _) => MismatchIsNormal(f);
    case _ => assert forall k | k in d :: Normal(d[k]);
  }

  lemma MismatchIsNormal(f: Finding)
    requires Quotable(f) && (f.ExactMismatch? || f.NumericMismatch?)
    ensures Normal(Document(f))
  {
    var d := Document(f).fields;
    if f.ExactMismatch? {
      SideIsNormal(f.left, Bool(f.leftValue));
      SideIsNormal(f.right, Bool(f.rightValue));
      assert forall k | k in d :: Normal(d[k]);
    } else {
      SideIsNormal(f.left, Float(f.leftNumber));
      SideIsNormal(f.right, Float(f.rightNumber));
      assert Normal(TolerancePayload(f.tolerance));
      assert forall k | k in d :: Normal(d[k]);
    }
  }

  lemma SideIsNormal(source: string, value: Value)
    requires Normal(value)
    ensures Normal(Side(source, value))
  {}
}
