/** Evidence values: what an implementation may hand over, and the normal form every record is kept in. */
module Documents {
  import opened Optional
  import opened Texts

  datatype Label = NotANumber | Infinite | NegativeInfinite

  /** A value as the program receives it; the last four forms have no place in a stored document. */
  datatype Value =
    | Null
    | Bool(flag: bool)
    | Whole(whole: int)
    | Float(number: real)
    | Text(text: string)
    | List(items: seq<Value>)
    | Object(fields: map<string, Value>)
    | NonFinite(tag: Label)
    | Dated(iso: string)
    | Enumerated(value: Value)
    | Unsupported

  /** The value of a field, or null where the field is missing. */
  function Get(fields: map<string, Value>, name: string): Value { if name in fields then fields[name] else Null }

  /** A finite number, as a float. */
  function Number(v: Value): Option<real> {
    match v case Whole(n) => Some(n as real) case Float(x) => Some(x) case _ => None
  }

  const MARKER := "__replication_nonfinite__"

  function LabelText(l: Label): string {
    match l
    case NotANumber => "NaN"
    case Infinite => "Infinity"
    case NegativeInfinite => "-Infinity"
  }

  function Marker(l: Label): Value { Object(map[MARKER := Text(LabelText(l))]) }

  predicate IsMarker(v: Value) {
    v.Object? && v.fields.Keys == {MARKER} &&
    v.fields[MARKER] in {Text("NaN"), Text("Infinity"), Text("-Infinity")}
  }

  /** The normal form: nothing but JSON values, every one of them finite. */
  predicate Normal(v: Value) {
    match v
    case Null | Bool(_) | Whole(_) | Float(_) | Text(_) => true
    case List(items) => forall i | 0 <= i < |items| :: Normal(items[i])
    case Object(fields) => forall k | k in fields :: Normal(fields[k])
    case NonFinite(_) | Dated(_) | Enumerated(_) | Unsupported => false
  }

  /** Values the normaliser does not refuse with a type error. */
  predicate Accepted(v: Value) {
    match v
    case List(items) => forall i | 0 <= i < |items| :: Accepted(items[i])
    case Object(fields) => forall k | k in fields :: Accepted(fields[k])
    case Enumerated(inner) => Accepted(inner)
    case Unsupported => false
    case _ => true
  }

  /** `_evidence_value`: a non-finite number becomes its tag, a date its text, an enumeration its value. */
  function Normalized(v: Value): (r: Value)
    requires Accepted(v)
    ensures Normal(r)
    ensures Normal(v) ==> r == v
  {
    match v
    case Null | Bool(_) | Whole(_) | Float(_) | Text(_) => v
    case NonFinite(tag) => Marker(tag)
    case Dated(iso) => Text(iso)
    case Enumerated(inner) => Normalized(inner)
    case List(items) => List(seq(|items|, i requires 0 <= i < |items| => Normalized(items[i])))
    case Object(fields) => Object(map k | k in fields :: Normalized(fields[k]))
  }

  lemma NormalIsAccepted(v: Value)
    requires Normal(v)
    ensures Accepted(v)
  {}

  /** Normalising twice is normalising once, so a stored document reads back as itself. */
  lemma NormalizedTwice(v: Value)
    requires Accepted(v)
    ensures Accepted(Normalized(v)) && Normalized(Normalized(v)) == Normalized(v)
  {
    NormalIsAccepted(Normalized(v));
  }

  /** A document mentions a non-finite number: some part of it, or all of it, is a tag. */
  predicate Carries(v: Value) {
    || IsMarker(v)
    || (v.List? && exists i | 0 <= i < |v.items| :: Carries(v.items[i]))
    || (v.Object? && exists k | k in v.fields :: Carries(v.fields[k]))
  }

  /** The nested part of `_key_is_valid`. */
  predicate ItemIsValid(v: Value) {
    !IsMarker(v) &&
    match v
    case Null | Bool(_) | Whole(_) | Float(_) | Text(_) => true
    case List(items) => forall i | 0 <= i < |items| :: ItemIsValid(items[i])
    case Object(fields) => forall k | k in fields :: !Blank(k) && ItemIsValid(fields[k])
    case _ => false
  }

  predicate KeyIsValid(v: Value) {
    v.Object? && v.fields != map[] && forall k | k in v.fields :: !Blank(k) && ItemIsValid(v.fields[k])
  }

  lemma ValidItemIsFinite(v: Value)
    requires ItemIsValid(v)
    ensures Normal(v) && !Carries(v)
  {}

  /** The tag is looked for inside a key but not on the key itself: a valid key mentions a non-finite
      number exactly when it is one. */
  lemma KeyCarriesOnlyItself(v: Value)
    requires KeyIsValid(v)
    ensures Normal(v)
    ensures Carries(v) <==> IsMarker(v)
  {
    forall k | k in v.fields ensures Normal(v.fields[k]) && !Carries(v.fields[k]) { ValidItemIsFinite(v.fields[k]); }
  }

  /** So a key that is NaN or infinite outright passes as a valid key. */
  lemma NonFiniteKeyPasses(l: Label)
    ensures KeyIsValid(Normalized(NonFinite(l))) && Carries(Normalized(NonFinite(l)))
  {
    assert !IsSpace(MARKER[0]);
    assert Marker(l).fields[MARKER] == Text(LabelText(l));
  }
}
